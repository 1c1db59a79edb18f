/** `parseVoiceInput` (src/hooks/useVoiceInput.js): the lower-cased text is
    matched against

        /add\s+(\d+(?:\.\d+)?)\s+(?:dollars?\s+)?(.+)/

    and the two groups become the amount and the description.

    The match is computed the way a backtracking regular-expression engine
    computes it: from the leftmost start position, each greedy repetition
    tries its longest length first and gives characters back one at a time,
    and an optional group is tried before it is skipped. Each stage below is
    one element of the pattern and returns the capture positions of the first
    success, or None. `\s` is the white space of `Validators.IsSpace`, `\d`
    the digits 0-9, and `.` any character but a line terminator. */
module Voice {
  import opened Values
  import Validators

  // ------------------------------------------------------ character runs

  predicate IsLineTerminator(c: char)
  {
    var n := c as int;
    n == 0x0A || n == 0x0D || n == 0x2028 || n == 0x2029
  }

  predicate AllSpace(s: string, i: int, j: int)
  {
    0 <= i <= j <= |s| && forall k :: i <= k < j ==> Validators.IsSpace(s[k])
  }

  predicate AllDigits(s: string, i: int, j: int)
  {
    0 <= i <= j <= |s| && forall k :: i <= k < j ==> Validators.IsDigit(s[k])
  }

  predicate NoTerminator(s: string, i: int, j: int)
  {
    0 <= i <= j <= |s| && forall k :: i <= k < j ==> !IsLineTerminator(s[k])
  }

  /** The length of the white space run at `i`. */
  function SpaceRun(s: string, i: nat): (n: nat)
    requires i <= |s|
    ensures i + n <= |s|
    ensures i + n < |s| ==> !Validators.IsSpace(s[i + n])
    decreases |s| - i
  {
    if i < |s| && Validators.IsSpace(s[i]) then 1 + SpaceRun(s, i + 1) else 0
  }

  /** The run at `i` is all white space. */
  lemma {:induction false} SpaceRunAll(s: string, i: nat)
    requires i <= |s|
    ensures AllSpace(s, i, i + SpaceRun(s, i))
    decreases |s| - i
  {
    if i < |s| && Validators.IsSpace(s[i]) {
      SpaceRunAll(s, i + 1);
    }
  }

  /** The length of the digit run at `i`. */
  function DigitRun(s: string, i: nat): (n: nat)
    requires i <= |s|
    ensures i + n <= |s|
    ensures i + n < |s| ==> !Validators.IsDigit(s[i + n])
    decreases |s| - i
  {
    if i < |s| && Validators.IsDigit(s[i]) then 1 + DigitRun(s, i + 1) else 0
  }

  /** The run at `i` is all digits. */
  lemma {:induction false} DigitRunAll(s: string, i: nat)
    requires i <= |s|
    ensures AllDigits(s, i, i + DigitRun(s, i))
    decreases |s| - i
  {
    if i < |s| && Validators.IsDigit(s[i]) {
      DigitRunAll(s, i + 1);
    }
  }

  /** The length of the run at `i` that `.` matches. */
  function LineRun(s: string, i: nat): (n: nat)
    requires i <= |s|
    ensures i + n <= |s|
    ensures i + n < |s| ==> IsLineTerminator(s[i + n])
    decreases |s| - i
  {
    if i < |s| && !IsLineTerminator(s[i]) then 1 + LineRun(s, i + 1) else 0
  }

  /** The run at `i` is all characters other than line terminators. */
  lemma {:induction false} LineRunAll(s: string, i: nat)
    requires i <= |s|
    ensures NoTerminator(s, i, i + LineRun(s, i))
    decreases |s| - i
  {
    if i < |s| && !IsLineTerminator(s[i]) {
      LineRunAll(s, i + 1);
    }
  }

  /** "add" at `i`. */
  predicate AddAt(s: string, i: nat)
  {
    i + 3 <= |s| && s[i] == 'a' && s[i + 1] == 'd' && s[i + 2] == 'd'
  }

  /** "dollar" at `i`. */
  predicate DollarAt(s: string, i: nat)
  {
    && i + 6 <= |s| && s[i] == 'd' && s[i + 1] == 'o' && s[i + 2] == 'l'
    && s[i + 3] == 'l' && s[i + 4] == 'a' && s[i + 5] == 'r'
  }

  /** "dollars" at `i`. */
  predicate DollarsAt(s: string, i: nat)
  {
    DollarAt(s, i) && i + 7 <= |s| && s[i + 6] == 's'
  }

  // ------------------------------------------------------------ the match

  /** Where group 1 lies: `s[start..end]`, whose integer digits end at
      `intEnd` (equal to `end` when there is no fraction). */
  datatype NumSpan = NumSpan(start: nat, intEnd: nat, end: nat)

  /** Where the groups of a match lie: group 1 is given by `num`, the optional
      currency group starts at `wordStart` (equal to `restStart` when it is
      skipped), and group 2 is `s[restStart..restEnd]`. */
  datatype Captures = Captures(num: NumSpan, wordStart: nat, restStart: nat, restEnd: nat)

  /** `(.+)` at `i`: greedy, and nothing follows it, so it takes the whole
      run up to the next line terminator, if that run is not empty. */
  function RestAt(s: string, num: NumSpan, w: nat, i: nat): Option<Captures>
    requires i <= |s|
  {
    var n := LineRun(s, i);
    if n == 0 then None else Some(Captures(num, w, i, i + n))
  }

  /** `\s+` after the currency word at `w`: the white space run
      `s[i..i + m]`, given back one character at a time, then `(.+)`. */
  function WordSpaceThen(s: string, num: NumSpan, w: nat, i: nat, m: nat): Option<Captures>
    requires i + m <= |s|
    decreases m
  {
    if m == 0 then None
    else
      var r := RestAt(s, num, w, i + m);
      if r.Some? then r else WordSpaceThen(s, num, w, i, m - 1)
  }

  /** `(?:dollars?\s+)?` at `i`, then `(.+)`: the group with the 's' first,
      then without it, then skipped. */
  function CurrencyThen(s: string, num: NumSpan, i: nat): Option<Captures>
    requires i <= |s|
  {
    var withS := if DollarsAt(s, i) then WordSpaceThen(s, num, i, i + 7, SpaceRun(s, i + 7)) else None;
    if withS.Some? then withS
    else
      var withoutS := if DollarAt(s, i) then WordSpaceThen(s, num, i, i + 6, SpaceRun(s, i + 6)) else None;
      if withoutS.Some? then withoutS
      else RestAt(s, num, i, i)
  }

  /** `\s+` after group 1: the white space run `s[num.end..num.end + m]`,
      given back one character at a time, then the currency group. */
  function GapThen(s: string, num: NumSpan, m: nat): Option<Captures>
    requires num.end + m <= |s|
    decreases m
  {
    if m == 0 then None
    else
      var r := CurrencyThen(s, num, num.end + m);
      if r.Some? then r else GapThen(s, num, m - 1)
  }

  /** Group 1 from `a`: the integer digits, then a '.' and the fraction
      digits when a digit follows the '.', each run as long as the text
      allows. A backtracking engine would also try these runs shorter, and
      the `\s+` before them too, when the rest of the pattern fails; no such
      try can succeed, because every way of matching at a position has this
      same group 1 (`NumberForced`), so they are not modelled. */
  function NumberAt(s: string, a: nat): NumSpan
    requires a <= |s|
  {
    var j := a + DigitRun(s, a);
    if j < |s| && s[j] == '.' && DigitRun(s, j + 1) > 0 then NumSpan(a, j, j + 1 + DigitRun(s, j + 1))
    else NumSpan(a, j, j)
  }

  /** The whole pattern, tried at position `p`. */
  function MatchAt(s: string, p: nat): Option<Captures>
    requires p <= |s|
  {
    if !AddAt(s, p) || SpaceRun(s, p + 3) == 0 then None
    else
      var a := p + 3 + SpaceRun(s, p + 3);
      if DigitRun(s, a) == 0 then None
      else
        var num := NumberAt(s, a);
        GapThen(s, num, SpaceRun(s, num.end))
  }

  /** The first start position from `p` on where the pattern matches. */
  function Search(s: string, p: nat): (r: Option<(nat, Captures)>)
    requires p <= |s|
    ensures r.Some? ==> && p <= r.value.0 <= |s| && MatchAt(s, r.value.0) == Some(r.value.1)
                        && forall q :: p <= q < r.value.0 ==> MatchAt(s, q).None?
    ensures r.None? ==> forall q :: p <= q <= |s| ==> MatchAt(s, q).None?
    decreases |s| - p
  {
    var r := MatchAt(s, p);
    if r.Some? then Some((p, r.value))
    else if p == |s| then None
    else Search(s, p + 1)
  }

  // ------------------------------------------------- what a success means

  /** Group 1 is digits up to `intEnd`, then either nothing or a '.' and
      more digits. */
  predicate NumFits(s: string, n: NumSpan)
  {
    && n.start < n.intEnd <= n.end <= |s| && AllDigits(s, n.start, n.intEnd)
    && (n.end == n.intEnd || (s[n.intEnd] == '.' && n.intEnd + 1 < n.end && AllDigits(s, n.intEnd + 1, n.end)))
  }

  /** Group 2 is the whole run without a line terminator from its start. */
  predicate RestFits(s: string, c: Captures)
  {
    && c.restStart < c.restEnd <= |s| && NoTerminator(s, c.restStart, c.restEnd)
    && (c.restEnd < |s| ==> IsLineTerminator(s[c.restEnd]))
  }

  /** After group 1: white space, then the currency group, which starts with
      a character `.` matches, then group 2. */
  predicate TailFits(s: string, c: Captures)
  {
    && c.num.end < c.wordStart <= c.restStart && RestFits(s, c)
    && AllSpace(s, c.num.end, c.wordStart) && !IsLineTerminator(s[c.wordStart])
  }

  /** `(.+)` succeeds exactly when a character it matches is at `i`, and
      then takes the whole run up to the next line terminator. */
  lemma RestSound(s: string, num: NumSpan, w: nat, i: nat)
    requires i <= |s|
    ensures RestAt(s, num, w, i).Some? <==> i < |s| && !IsLineTerminator(s[i])
    ensures RestAt(s, num, w, i).Some? ==>
              var c := RestAt(s, num, w, i).value;
              c.num == num && c.wordStart == w && c.restStart == i && RestFits(s, c)
  {
    LineRunAll(s, i);
  }

  /** The white space after the currency word gives back characters until
      `(.+)` succeeds. */
  lemma {:induction false} WordSpaceSound(s: string, num: NumSpan, w: nat, i: nat, m: nat)
    requires i + m <= |s| && AllSpace(s, i, i + m) && WordSpaceThen(s, num, w, i, m).Some?
    ensures var c := WordSpaceThen(s, num, w, i, m).value;
            && c.num == num && c.wordStart == w && i < c.restStart <= i + m
            && AllSpace(s, i, c.restStart) && RestFits(s, c)
    decreases m
  {
    RestSound(s, num, w, i + m);
    if RestAt(s, num, w, i + m).None? {
      WordSpaceSound(s, num, w, i, m - 1);
    }
  }

  /** The currency group and `(.+)` succeed exactly when a character `.`
      matches is at `i`. */
  lemma CurrencySound(s: string, num: NumSpan, i: nat)
    requires i <= |s|
    ensures CurrencyThen(s, num, i).Some? <==> i < |s| && !IsLineTerminator(s[i])
    ensures CurrencyThen(s, num, i).Some? ==>
              var c := CurrencyThen(s, num, i).value;
              c.num == num && c.wordStart == i && i <= c.restStart && RestFits(s, c)
  {
    RestSound(s, num, i, i);
    if DollarsAt(s, i) && WordSpaceThen(s, num, i, i + 7, SpaceRun(s, i + 7)).Some? {
      SpaceRunAll(s, i + 7);
      WordSpaceSound(s, num, i, i + 7, SpaceRun(s, i + 7));
    } else if DollarAt(s, i) && WordSpaceThen(s, num, i, i + 6, SpaceRun(s, i + 6)).Some? {
      SpaceRunAll(s, i + 6);
      WordSpaceSound(s, num, i, i + 6, SpaceRun(s, i + 6));
    }
  }

  /** The white space after group 1 gives back characters until the currency
      group succeeds. */
  lemma {:induction false} GapSound(s: string, num: NumSpan, m: nat)
    requires num.end + m <= |s| && AllSpace(s, num.end, num.end + m) && GapThen(s, num, m).Some?
    ensures var c := GapThen(s, num, m).value;
            c.num == num && c.wordStart <= num.end + m && TailFits(s, c)
    decreases m
  {
    var r := CurrencyThen(s, num, num.end + m);
    if r.None? {
      assert GapThen(s, num, m) == GapThen(s, num, m - 1);
      assert AllSpace(s, num.end, num.end + m - 1);
      GapSound(s, num, m - 1);
    } else {
      assert GapThen(s, num, m) == r;
      CurrencyFits(s, num, m);
    }
  }

  /** When the currency group and `(.+)` succeed at the end of the white
      space after group 1, they complete the tail of the pattern. */
  lemma CurrencyFits(s: string, num: NumSpan, m: nat)
    requires 0 < m && num.end + m <= |s| && AllSpace(s, num.end, num.end + m)
    requires CurrencyThen(s, num, num.end + m).Some?
    ensures var c := CurrencyThen(s, num, num.end + m).value;
            c.num == num && c.wordStart == num.end + m && TailFits(s, c)
  {
    CurrencySound(s, num, num.end + m);
  }

  /** Group 1 as delimited from a digit is a number. */
  lemma NumberAtFits(s: string, a: nat)
    requires a <= |s| && DigitRun(s, a) > 0
    ensures NumFits(s, NumberAt(s, a))
  {
    DigitRunAll(s, a);
    var j := a + DigitRun(s, a);
    if j < |s| && s[j] == '.' {
      DigitRunAll(s, j + 1);
    }
  }

  /** A match at `p` starts with "add" and white space, up to group 1. */
  lemma MatchAtHead(s: string, p: nat)
    requires p <= |s| && MatchAt(s, p).Some?
    ensures var c := MatchAt(s, p).value;
            AddAt(s, p) && p + 3 < c.num.start && AllSpace(s, p + 3, c.num.start)
  {
    MatchAtSteps(s, p);
    SpaceRunAll(s, p + 3);
    var num := NumberAt(s, p + 3 + SpaceRun(s, p + 3));
    GapKeepsNumber(s, num, SpaceRun(s, num.end));
  }

  /** After "add": group 1, white space, the optional currency group and
      group 2, laid out in order, as the gap stage finds them after group 1. */
  lemma MatchAtFits(s: string, p: nat)
    requires p <= |s| && MatchAt(s, p).Some?
    ensures var c := MatchAt(s, p).value;
            && NumFits(s, c.num) && TailFits(s, c) && c.wordStart <= c.num.end + SpaceRun(s, c.num.end)
            && GapThen(s, c.num, SpaceRun(s, c.num.end)) == Some(c)
  {
    MatchAtSteps(s, p);
    NumberThenGapFits(s, p + 3 + SpaceRun(s, p + 3));
  }

  /** Group 1 from `a`, then the gap stage: a number, and a tail laid out as
      the pattern says. */
  lemma NumberThenGapFits(s: string, a: nat)
    requires a <= |s| && DigitRun(s, a) > 0
    requires GapThen(s, NumberAt(s, a), SpaceRun(s, NumberAt(s, a).end)).Some?
    ensures var num := NumberAt(s, a);
            var c := GapThen(s, num, SpaceRun(s, num.end)).value;
            && c.num == num && NumFits(s, num) && TailFits(s, c)
            && c.wordStart <= num.end + SpaceRun(s, num.end)
  {
    var num := NumberAt(s, a);
    NumberAtFits(s, a);
    SpaceRunAll(s, num.end);
    GapSound(s, num, SpaceRun(s, num.end));
  }

  /** A match at `p` passes "add" and the white space after it, starts group
      1 with a digit, and is what the gap stage finds after that number. */
  lemma MatchAtSteps(s: string, p: nat)
    requires p <= |s| && MatchAt(s, p).Some?
    ensures AddAt(s, p) && SpaceRun(s, p + 3) > 0 && DigitRun(s, p + 3 + SpaceRun(s, p + 3)) > 0
    ensures var num := NumberAt(s, p + 3 + SpaceRun(s, p + 3));
            MatchAt(s, p) == GapThen(s, num, SpaceRun(s, num.end))
  {
  }

  /** The first stage after group 1 keeps group 1 as given. */
  lemma {:induction false} GapKeepsNumber(s: string, num: NumSpan, m: nat)
    requires num.end + m <= |s| && GapThen(s, num, m).Some?
    ensures GapThen(s, num, m).value.num == num
    decreases m
  {
    CurrencySound(s, num, num.end + m);
    if CurrencyThen(s, num, num.end + m).None? {
      GapKeepsNumber(s, num, m - 1);
    }
  }

  // -------------------------------------------------- what the pattern means

  /** Digits, optionally followed by a '.' and more digits, fill `s[a..b]`. */
  predicate NumberSpan(s: string, a: int, b: int)
    requires 0 <= a <= b <= |s|
  {
    a < b && (AllDigits(s, a, b) || exists m :: a < m < b - 1 && AllDigits(s, a, m) && s[m] == '.' && AllDigits(s, m + 1, b))
  }

  /** One way the pattern can match at `p`: "add", white space up to `a`, the
      number in `s[a..b]`, white space up to `x`, and at `x` a character that
      starts the rest (the currency group may start there too). */
  predicate Decomposes(s: string, p: int, a: int, b: int, x: int)
  {
    && 0 <= p && p + 3 < a < b < x < |s|
    && AddAt(s, p)
    && AllSpace(s, p + 3, a) && NumberSpan(s, a, b) && AllSpace(s, b, x)
    && !IsLineTerminator(s[x])
  }

  /** The pattern can match at `p`. */
  ghost predicate MatchesAt(s: string, p: int)
  {
    exists a, b, x :: Decomposes(s, p, a, b, x)
  }

  /** Group 1 as the matcher delimits it is a number. */
  lemma NumFitsSpan(s: string, n: NumSpan)
    requires NumFits(s, n)
    ensures NumberSpan(s, n.start, n.end)
  {
    if n.end != n.intEnd {
      var m := n.intEnd;
      assert n.start < m < n.end - 1 && AllDigits(s, n.start, m) && s[m] == '.' && AllDigits(s, m + 1, n.end);
    }
  }

  /** What the matcher finds at `p` is a way of matching there. */
  lemma MatchAtSound(s: string, p: nat)
    requires p <= |s| && MatchAt(s, p).Some?
    ensures var c := MatchAt(s, p).value; Decomposes(s, p, c.num.start, c.num.end, c.wordStart)
  {
    MatchAtHead(s, p);
    MatchAtFits(s, p);
    NumFitsSpan(s, MatchAt(s, p).value.num);
  }

  /** A digit run ends where a non-digit follows. */
  lemma {:induction false} DigitRunEnds(s: string, a: nat, b: nat)
    requires a <= b < |s| && AllDigits(s, a, b) && !Validators.IsDigit(s[b])
    ensures a + DigitRun(s, a) == b
    decreases b - a
  {
    if a < b {
      DigitRunEnds(s, a + 1, b);
    }
  }

  /** A white space run ends where other text follows. */
  lemma {:induction false} SpaceRunEnds(s: string, a: nat, b: nat)
    requires a <= b < |s| && AllSpace(s, a, b) && !Validators.IsSpace(s[b])
    ensures a + SpaceRun(s, a) == b
    decreases b - a
  {
    if a < b {
      SpaceRunEnds(s, a + 1, b);
    }
  }

  /** White space up to `x` lies within the maximal run. */
  lemma {:induction false} GapLength(s: string, b: nat, x: nat)
    requires b <= x <= |s| && AllSpace(s, b, x)
    ensures x <= b + SpaceRun(s, b)
    decreases x - b
  {
    if b < x {
      GapLength(s, b + 1, x);
    }
  }

  /** Digits in `s[a..b]` followed by white space: group 1 is those digits. */
  lemma WholeEnds(s: string, a: nat, b: nat)
    requires a < b < |s| && AllDigits(s, a, b) && Validators.IsSpace(s[b])
    ensures DigitRun(s, a) > 0 && NumberAt(s, a) == NumSpan(a, b, b)
  {
    assert !Validators.IsDigit(s[b]) && s[b] != '.';
    DigitRunEnds(s, a, b);
  }

  /** Digits, '.', digits in `s[a..b]` followed by white space: group 1 is
      all of them, with the '.' at `m`. */
  lemma FractionEnds(s: string, a: nat, m: nat, b: nat)
    requires a < m < b - 1 && b < |s| && AllDigits(s, a, m) && s[m] == '.' && AllDigits(s, m + 1, b)
    requires Validators.IsSpace(s[b])
    ensures DigitRun(s, a) > 0 && NumberAt(s, a) == NumSpan(a, m, b)
  {
    assert !Validators.IsDigit(s[m]);
    DigitRunEnds(s, a, m);
    assert !Validators.IsDigit(s[b]);
    DigitRunEnds(s, m + 1, b);
  }

  /** Every way of matching at `p` has the same group 1: the one the matcher
      takes, after the whole white space run that follows "add". */
  lemma NumberForced(s: string, p: nat, a: int, b: int, x: int)
    requires Decomposes(s, p, a, b, x)
    ensures a == p + 3 + SpaceRun(s, p + 3) && DigitRun(s, a) > 0
    ensures NumberAt(s, a).end == b
  {
    assert !Validators.IsSpace(s[a]) by {
      assert Validators.IsDigit(s[a]);
    }
    SpaceRunEnds(s, p + 3, a);
    assert Validators.IsSpace(s[b]);
    if AllDigits(s, a, b) {
      WholeEnds(s, a, b);
    } else {
      var m :| a < m < b - 1 && AllDigits(s, a, m) && s[m] == '.' && AllDigits(s, m + 1, b);
      FractionEnds(s, a, m, b);
    }
  }

  /** The white space after group 1, tried from any length down, reaches
      every later start of the rest. */
  lemma {:induction false} GapComplete(s: string, num: NumSpan, m: nat, x: nat)
    requires num.end + m <= |s| && AllSpace(s, num.end, num.end + m)
    requires num.end < x <= num.end + m && x < |s| && !IsLineTerminator(s[x])
    ensures GapThen(s, num, m).Some?
    decreases m
  {
    CurrencySound(s, num, num.end + m);
    if CurrencyThen(s, num, num.end + m).None? {
      GapComplete(s, num, m - 1, x);
    }
  }

  /** Whenever the pattern can match at `p`, the matcher finds a match there. */
  lemma MatchAtComplete(s: string, p: nat, a: int, b: int, x: int)
    requires p <= |s| && Decomposes(s, p, a, b, x)
    ensures MatchAt(s, p).Some?
  {
    assert a == p + 3 + SpaceRun(s, p + 3) && DigitRun(s, a) > 0 && NumberAt(s, a).end == b by {
      NumberForced(s, p, a, b, x);
    }
    var num := NumberAt(s, a);
    assert GapThen(s, num, SpaceRun(s, b)).Some? by {
      GapLength(s, b, x);
      SpaceRunAll(s, b);
      GapComplete(s, num, SpaceRun(s, b), x);
    }
  }

  /** The matcher succeeds at `p` exactly when the pattern can match there. */
  lemma MatchAtIff(s: string, p: nat)
    requires p <= |s|
    ensures MatchAt(s, p).Some? <==> MatchesAt(s, p)
  {
    if MatchAt(s, p).Some? {
      MatchAtSound(s, p);
      var c := MatchAt(s, p).value;
      assert Decomposes(s, p, c.num.start, c.num.end, c.wordStart);
    }
    if MatchesAt(s, p) {
      var a, b, x :| Decomposes(s, p, a, b, x);
      MatchAtComplete(s, p, a, b, x);
    }
  }

  // ------------------------------------------------------ parseVoiceInput

  datatype VoiceEntry = VoiceEntry(amount: real, description: string)

  /** The start and the groups of the leftmost match in the lower-cased
      text `s`: the match is at its start, and its groups are laid out as
      the pattern says. */
  function Matched(s: string): (r: Option<(nat, Captures)>)
    ensures r.Some? ==> && r.value.0 <= |s| && NumFits(s, r.value.1.num) && TailFits(s, r.value.1)
                        && r.value.1.wordStart <= r.value.1.num.end + SpaceRun(s, r.value.1.num.end)
                        && GapThen(s, r.value.1.num, SpaceRun(s, r.value.1.num.end)) == Some(r.value.1)
  {
    var r := Search(s, 0);
    if r.Some? then MatchAtFits(s, r.value.0); r else r
  }

  /** `parseFloat(match[1])`: the digits read as a number. */
  function AmountOf(numText: string): (v: real)
    requires Validators.Numeral(numText).Some?
  {
    Validators.Numeral(numText).value
  }

  /** The entry made from the groups of a match. */
  function EntryOf(s: string, c: Captures): VoiceEntry
    requires c.num.start <= c.num.end <= c.restStart <= c.restEnd <= |s|
    requires NumberSpan(s, c.num.start, c.num.end)
  {
    NumberSpanNumeral(s, c.num.start, c.num.end);
    VoiceEntry(AmountOf(s[c.num.start..c.num.end]), Validators.Trim(s[c.restStart..c.restEnd]))
  }

  /** The result for the lower-cased text `s`. */
  function ParseLowered(s: string): Option<VoiceEntry>
  {
    match Matched(s)
    case None => None
    case Some((_, c)) =>
      NumFitsSpan(s, c.num);
      Some(EntryOf(s, c))
  }

  /** `parseVoiceInput(text)`. */
  function ParseVoiceInput(text: string): Option<VoiceEntry>
  {
    ParseLowered(Lower(text))
  }

  // ------------------------------------------------------------ the amount

  /** Reading digits keeps the reading in a phase that may end, with a
      non-negative value. */
  lemma {:induction false} RunDigits(t: string, st: Validators.Scan)
    requires forall k :: 0 <= k < |t| ==> Validators.IsDigit(t[k])
    requires st.phase in {Validators.Whole, Validators.Fraction} && !st.neg && !st.expNeg && st.exp == 0
    ensures Validators.Run(t, st).Some? && Validators.Run(t, st).value >= 0.0
    decreases |t|
  {
    if t == [] {
      ScaleNonNegative(st.mant as real, -(st.fracDigits as int));
    } else {
      var next := Validators.Step(st, t[0]);
      assert next.Some?;
      forall k | 0 <= k < |t[1..]| ensures Validators.IsDigit(t[1..][k]) {
        assert t[1..][k] == t[k + 1];
      }
      RunDigits(t[1..], next.value);
    }
  }

  lemma ScaleNonNegative(m: real, e: int)
    requires m >= 0.0
    ensures Validators.Scale(m, e) >= 0.0
  {
    var p := Validators.Pow10(if e >= 0 then e else -e) as real;
    assert p >= 1.0;
    if e < 0 {
      assert m / p >= 0.0;
    }
  }

  /** Digits, then optionally '.' and digits, read from the start. */
  lemma {:induction false} RunNumber(t: string, dot: int, st: Validators.Scan)
    requires st.phase == Validators.Whole && !st.neg && !st.expNeg && st.exp == 0
    requires 0 <= dot < |t| - 1 && t[dot] == '.'
    requires forall k :: 0 <= k < |t| && k != dot ==> Validators.IsDigit(t[k])
    ensures Validators.Run(t, st).Some? && Validators.Run(t, st).value >= 0.0
    decreases |t|
  {
    var next := Validators.Step(st, t[0]);
    assert next.Some?;
    if dot == 0 {
      forall k | 0 <= k < |t[1..]| ensures Validators.IsDigit(t[1..][k]) {
        assert t[1..][k] == t[k + 1];
      }
      RunDigits(t[1..], next.value);
    } else {
      forall k | 0 <= k < |t[1..]| && k != dot - 1 ensures Validators.IsDigit(t[1..][k]) {
        assert t[1..][k] == t[k + 1];
      }
      RunNumber(t[1..], dot - 1, next.value);
    }
  }

  /** The text of group 1 is a numeral with a non-negative value. */
  lemma NumberSpanNumeral(s: string, a: nat, b: nat)
    requires a <= b <= |s| && NumberSpan(s, a, b)
    ensures Validators.Numeral(s[a..b]).Some? && Validators.Numeral(s[a..b]).value >= 0.0
  {
    var t := s[a..b];
    var st := Validators.Begin;
    var next := Validators.Step(st, t[0]);
    assert Validators.IsDigit(s[a]);
    assert next.Some? && next.value.phase == Validators.Whole;
    if AllDigits(s, a, b) {
      forall k | 0 <= k < |t[1..]| ensures Validators.IsDigit(t[1..][k]) {
        assert t[1..][k] == s[a + 1 + k];
      }
      RunDigits(t[1..], next.value);
    } else {
      var m :| a < m < b - 1 && AllDigits(s, a, m) && s[m] == '.' && AllDigits(s, m + 1, b);
      forall k | 0 <= k < |t[1..]| && k != m - a - 1 ensures Validators.IsDigit(t[1..][k]) {
        assert t[1..][k] == s[a + 1 + k];
      }
      assert t[1..][m - a - 1] == '.';
      RunNumber(t[1..], m - a - 1, next.value);
    }
  }

  // ------------------------------------------------------------ properties

  /** There is no result exactly when the pattern matches nowhere in the
      lower-cased text. */
  lemma NoMatchIsNull(text: string)
    ensures ParseVoiceInput(text).None? <==> forall p :: 0 <= p <= |text| ==> !MatchesAt(Lower(text), p)
  {
    var s := Lower(text);
    forall p | 0 <= p <= |s| ensures MatchAt(s, p).Some? <==> MatchesAt(s, p) {
      MatchAtIff(s, p);
    }
  }

  /** The match used is the leftmost one: it matches at its start and the
      pattern matches at no earlier position. */
  lemma LeftmostMatch(text: string)
    requires Matched(Lower(text)).Some?
    ensures var p := Matched(Lower(text)).value.0;
            && MatchesAt(Lower(text), p)
            && forall q :: 0 <= q < p ==> !MatchesAt(Lower(text), q)
  {
    var s := Lower(text);
    var p := Matched(s).value.0;
    MatchAtIff(s, p);
    forall q | 0 <= q < p ensures !MatchesAt(s, q) {
      MatchAtIff(s, q);
    }
  }

  /** Group 1 is digits with an optional fraction, and the amount is its
      non-negative value; the description is group 2 trimmed, which holds no
      line terminator and is followed by one or by the end of the text. */
  lemma ResultShape(text: string)
    requires Matched(Lower(text)).Some?
    ensures var s := Lower(text);
            var c := Matched(s).value.1;
            var r := ParseVoiceInput(text);
            && c.num.start < c.num.end < c.restStart < c.restEnd <= |s|
            && NumberSpan(s, c.num.start, c.num.end)
            && Validators.Numeral(s[c.num.start..c.num.end]).Some?
            && r.Some? && r.value.amount == Validators.Numeral(s[c.num.start..c.num.end]).value
            && r.value.amount >= 0.0
            && r.value.description == Validators.Trim(s[c.restStart..c.restEnd])
            && NoTerminator(s, c.restStart, c.restEnd)
            && (c.restEnd < |s| ==> IsLineTerminator(s[c.restEnd]))
  {
    var s := Lower(text);
    var c := Matched(s).value.1;
    NumFitsSpan(s, c.num);
    NumberSpanNumeral(s, c.num.start, c.num.end);
  }

  /** After group 1: white space, then the currency word of length `n`
      ("dollars" for 7, "dollar" for 6), then white space and more text. */
  predicate CurrencyFollows(s: string, num: NumSpan, n: nat)
  {
    && num.end <= |s| && SpaceRun(s, num.end) > 0
    && var y := num.end + SpaceRun(s, num.end);
       && (if n == 7 then DollarsAt(s, y) else n == 6 && DollarAt(s, y))
       && SpaceRun(s, y + n) > 0 && y + n + SpaceRun(s, y + n) < |s|
  }

  /** The currency word of length `n` ("dollar" or "dollars") right after the
      white space that follows group 1, then white space and more text: the
      gap stage, whose result is the match (`Matched`), takes the word and
      all of that white space, so neither is part of the description. */
  lemma CurrencyTaken(s: string, num: NumSpan, n: nat)
    requires CurrencyFollows(s, num, n)
    ensures var y := num.end + SpaceRun(s, num.end);
            var r := GapThen(s, num, SpaceRun(s, num.end));
            r.Some? && r.value.wordStart == y && r.value.restStart == y + n + SpaceRun(s, y + n)
  {
    var y := num.end + SpaceRun(s, num.end);
    if n == 6 {
      assert !DollarsAt(s, y) by {
        assert Validators.IsSpace(s[y + 6]);
      }
    }
    WordFirst(s, num, y, n);
    GapTakesFirst(s, num);
  }

  /** The currency group at `y` with the word of length `n`, followed by white
      space and text, is taken with all of that white space. */
  lemma WordFirst(s: string, num: NumSpan, y: nat, n: nat)
    requires n == 7 || n == 6
    requires if n == 7 then DollarsAt(s, y) else DollarAt(s, y) && !DollarsAt(s, y)
    requires SpaceRun(s, y + n) > 0 && y + n + SpaceRun(s, y + n) < |s|
    ensures CurrencyThen(s, num, y).Some? && CurrencyThen(s, num, y).value.wordStart == y
    ensures CurrencyThen(s, num, y).value.restStart == y + n + SpaceRun(s, y + n)
  {
    var u := SpaceRun(s, y + n);
    RestSound(s, num, y, y + n + u);
    assert RestAt(s, num, y, y + n + u).Some? by {
      assert !Validators.IsSpace(s[y + n + u]);
    }
    assert WordSpaceThen(s, num, y, y + n, u) == RestAt(s, num, y, y + n + u);
  }

  /** With the maximal white space run, the gap stage takes the currency
      group at the end of the run when that succeeds. */
  lemma GapTakesFirst(s: string, num: NumSpan)
    requires num.end <= |s|
    requires var y := num.end + SpaceRun(s, num.end); y <= |s| && SpaceRun(s, num.end) > 0 && CurrencyThen(s, num, y).Some?
    ensures GapThen(s, num, SpaceRun(s, num.end)) == CurrencyThen(s, num, num.end + SpaceRun(s, num.end))
  {
  }

  /** Upper and lower case give the same result. */
  lemma CaseInsensitive(text: string)
    ensures ParseVoiceInput(text) == ParseVoiceInput(Lower(text))
  {
    var t := Lower(text);
    assert Lower(t) == t by {
      forall i | 0 <= i < |t| ensures Lower(t)[i] == t[i] {
        assert t[i] == LowerChar(text[i]);
      }
    }
  }
}
