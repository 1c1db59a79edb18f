/** Keyboard shortcuts (src/hooks/useKeyboardShortcuts.js): the shortcut
    table, the lookup map built from it, the keydown decision, the help
    display string and the grouping of the help screen.

    Case mapping is ASCII-only: `toLowerCase` and `toUpperCase` change the
    letters A-Z and a-z and leave every other character as it is. */
module Shortcuts {
  import opened Values

  /** One shortcut: its key and the modifiers it needs. */
  datatype Shortcut = Shortcut(key: string, ctrl: bool, meta: bool, shift: bool, alt: bool, description: string)

  /** An entry of `Object.entries(shortcuts)`. */
  datatype Entry = Entry(action: string, shortcut: Shortcut)

  /** The `shortcuts` object, in its declaration order. */
  const Table: seq<Entry> := [
    Entry("ADD_TRANSACTION", Shortcut("k", true, false, false, false, "Add new transaction")),
    Entry("SEARCH", Shortcut("/", false, false, false, false, "Focus search")),
    Entry("TOGGLE_THEME", Shortcut("d", true, false, false, false, "Toggle dark mode")),
    Entry("GOTO_DASHBOARD", Shortcut("1", true, false, false, false, "Go to Dashboard")),
    Entry("GOTO_TRANSACTIONS", Shortcut("2", true, false, false, false, "Go to Transactions")),
    Entry("GOTO_SETTINGS", Shortcut("3", true, false, false, false, "Go to Settings")),
    Entry("OPEN_DEBUG", Shortcut("d", true, false, true, false, "Open debug console")),
    Entry("TOGGLE_HELP", Shortcut("?", false, false, true, false, "Show keyboard shortcuts")),
    Entry("EXPORT_DATA", Shortcut("e", true, false, false, false, "Export data")),
    Entry("CREATE_BACKUP", Shortcut("b", true, false, false, false, "Create backup")),
    Entry("LOCK_APP", Shortcut("l", true, false, true, false, "Lock app")),
    Entry("REFRESH", Shortcut("r", true, false, false, false, "Refresh data"))
  ]

  // ------------------------------------------------------------- strings

  function UpperChar(c: char): char
  {
    if 'a' <= c <= 'z' then (c as int - 32) as char else c
  }

  function Upper(s: string): (r: string)
    ensures |r| == |s| && forall i :: 0 <= i < |s| ==> r[i] == UpperChar(s[i])
  {
    seq(|s|, i requires 0 <= i < |s| => UpperChar(s[i]))
  }

  predicate StartsWith(s: string, prefix: string)
  {
    |prefix| <= |s| && s[..|prefix|] == prefix
  }

  /** `part` occurs in `s` at position `i`. */
  predicate At(s: string, part: string, i: int)
  {
    0 <= i && i + |part| <= |s| && s[i..i + |part|] == part
  }

  /** `s.includes(part)`. */
  predicate Includes(s: string, part: string)
  {
    exists i | 0 <= i <= |s| :: At(s, part, i)
  }

  /** A string whose first character differs from a prefix's does not start
      with it. */
  lemma FirstCharDiffers(s: string, prefix: string)
    requires |s| > 0 && |prefix| > 0 && s[0] != prefix[0]
    ensures !StartsWith(s, prefix)
  {
  }

  /** A part holding a character that `s` lacks is not included in `s`. */
  lemma MissingChar(s: string, part: string, c: char)
    requires c in part && c !in s
    ensures !Includes(s, part)
  {
  }

  // ----------------------------------------------------------- lookup keys

  /** The lookup key: `ctrl+`, `meta+`, `shift+`, `alt+` for the modifiers
      present, in that order, then the lower-cased key. */
  function Combo(ctrl: bool, meta: bool, shift: bool, alt: bool, key: string): string
  {
    (if ctrl then "ctrl+" else "") + ((if meta then "meta+" else "") +
    ((if shift then "shift+" else "") + ((if alt then "alt+" else "") + Lower(key))))
  }

  /** The lookup key of a table entry. */
  function ShortcutKey(s: Shortcut): string
  {
    Combo(s.ctrl, s.meta, s.shift, s.alt, s.key)
  }

  datatype Parsed = Parsed(ctrl: bool, meta: bool, shift: bool, alt: bool, key: string)

  /** Reads a lookup key back: strips the modifier prefixes in their fixed
      order; what remains is the key. */
  function ParseCombo(s: string): Parsed
  {
    var (ctrl, s1) := Strip(s, "ctrl+");
    var (meta, s2) := Strip(s1, "meta+");
    var (shift, s3) := Strip(s2, "shift+");
    var (alt, s4) := Strip(s3, "alt+");
    Parsed(ctrl, meta, shift, alt, s4)
  }

  /** Whether `s` starts with the prefix, and what follows it. */
  function Strip(s: string, p: string): (bool, string)
  {
    if StartsWith(s, p) then (true, s[|p|..]) else (false, s)
  }

  /** A key that does not itself begin with a modifier prefix. */
  predicate PlainKey(k: string)
  {
    !StartsWith(k, "ctrl+") && !StartsWith(k, "meta+") && !StartsWith(k, "shift+") && !StartsWith(k, "alt+")
  }

  lemma StripPrefix(p: string, rest: string)
    ensures StartsWith(p + rest, p) && (p + rest)[|p|..] == rest
  {
    assert (p + rest)[..|p|] == p;
  }

  /** One stage of `ParseCombo`: a modifier prefix that is present is
      recognised and stripped, one that is absent is not mistaken for
      present, as long as the rest does not itself start with it. */
  lemma Stage(flag: bool, p: string, rest: string)
    requires |p| > 0 && !StartsWith(rest, p)
    ensures Strip((if flag then p else "") + rest, p) == (flag, rest)
  {
    if flag {
      StripPrefix(p, rest);
    } else {
      assert "" + rest == rest;
    }
  }

  /** A string built from modifier prefixes (of which at least one is
      present) and a key starts with the first present prefix's letter. */
  lemma LeadingPrefix(p: string, rest: string, c: char, q: string)
    requires |p| > 0 && p[0] == c && |q| > 0 && q[0] != c
    ensures !StartsWith(p + rest, q)
  {
    FirstCharDiffers(p + rest, q);
  }

  /** The lookup key determines the modifiers and the lower-cased key, as long
      as the key does not start with a modifier prefix: the construction is
      read back by `ParseCombo`. */
  lemma ComboRoundTrip(ctrl: bool, meta: bool, shift: bool, alt: bool, key: string)
    requires PlainKey(Lower(key))
    ensures ParseCombo(Combo(ctrl, meta, shift, alt, key)) == Parsed(ctrl, meta, shift, alt, Lower(key))
  {
    var k := Lower(key);
    var s4 := (if alt then "alt+" else "") + k;
    var s3 := (if shift then "shift+" else "") + s4;
    var s2 := (if meta then "meta+" else "") + s3;
    Stage(alt, "alt+", k);
    if alt {
      LeadingPrefix("alt+", k, 'a', "shift+");
    } else {
      assert s4 == k;
    }
    Stage(shift, "shift+", s4);
    if shift {
      LeadingPrefix("shift+", s4, 's', "meta+");
    } else if alt {
      LeadingPrefix("alt+", k, 'a', "meta+");
    } else {
      assert s3 == k;
    }
    Stage(meta, "meta+", s3);
    if meta {
      LeadingPrefix("meta+", s3, 'm', "ctrl+");
    } else if shift {
      LeadingPrefix("shift+", s4, 's', "ctrl+");
    } else if alt {
      LeadingPrefix("alt+", k, 'a', "ctrl+");
    } else {
      assert s2 == k;
    }
    Stage(ctrl, "ctrl+", s2);
  }

  /** Two combinations with plain keys share a lookup key only when they
      have the same modifiers and the same key up to case. */
  lemma ComboInjective(c1: bool, m1: bool, s1: bool, a1: bool, k1: string,
                       c2: bool, m2: bool, s2: bool, a2: bool, k2: string)
    requires PlainKey(Lower(k1)) && PlainKey(Lower(k2))
    ensures Combo(c1, m1, s1, a1, k1) == Combo(c2, m2, s2, a2, k2) <==>
            c1 == c2 && m1 == m2 && s1 == s2 && a1 == a2 && Lower(k1) == Lower(k2)
  {
    ComboRoundTrip(c1, m1, s1, a1, k1);
    ComboRoundTrip(c2, m2, s2, a2, k2);
  }

  // --------------------------------------------------------- the lookup map

  /** `shortcutMap` after the `forEach` over the given entries; a later entry
      with the same lookup key would replace an earlier one. */
  function MapOf(entries: seq<Entry>): map<string, Entry>
  {
    if entries == [] then map[]
    else
      var e := entries[|entries| - 1];
      MapOf(entries[..|entries| - 1])[ShortcutKey(e.shortcut) := e]
  }

  /** The module-level `forEach` that fills `shortcutMap`. */
  method BuildShortcutMap() returns (m: map<string, Entry>)
    ensures m == MapOf(Table)
  {
    m := map[];
    for i := 0 to |Table|
      invariant m == MapOf(Table[..i])
    {
      assert Table[..i + 1][..i] == Table[..i];
      var e := Table[i];
      m := m[ShortcutKey(e.shortcut) := e];
    }
    assert Table[..|Table|] == Table;
  }

  /** The map holds exactly the lookup keys of the entries, and when those
      keys are pairwise distinct each key leads to its own entry. */
  lemma {:induction false} MapOfLookup(entries: seq<Entry>)
    requires forall i, j :: 0 <= i < j < |entries| ==> ShortcutKey(entries[i].shortcut) != ShortcutKey(entries[j].shortcut)
    ensures forall k :: k in MapOf(entries) <==> exists i :: 0 <= i < |entries| && ShortcutKey(entries[i].shortcut) == k
    ensures forall i :: 0 <= i < |entries| ==> MapOf(entries)[ShortcutKey(entries[i].shortcut)] == entries[i]
  {
    if entries != [] {
      var init := entries[..|entries| - 1];
      MapOfLookup(init);
      forall k ensures k in MapOf(entries) <==> exists i :: 0 <= i < |entries| && ShortcutKey(entries[i].shortcut) == k {
        if k in MapOf(init) {
          var i :| 0 <= i < |init| && ShortcutKey(init[i].shortcut) == k;
          assert entries[i] == init[i];
        }
      }
      forall i | 0 <= i < |entries| ensures MapOf(entries)[ShortcutKey(entries[i].shortcut)] == entries[i] {
        if i < |init| {
          assert init[i] == entries[i];
        }
      }
    }
  }

  /** Every key of the table is one character that lower-casing leaves as
      it is and that is no modifier prefix. */
  lemma TableKeysLower(i: int)
    requires 0 <= i < |Table|
    ensures |Table[i].shortcut.key| == 1
    ensures Lower(Table[i].shortcut.key) == Table[i].shortcut.key
    ensures PlainKey(Table[i].shortcut.key)
  {
    var k := Table[i].shortcut.key;
    assert k in ["k", "/", "d", "1", "2", "3", "?", "e", "b", "l", "r"];
    assert Lower(k) == k;
  }

  /** The table's lookup keys are pairwise distinct. */
  lemma TableKeysDistinct()
    ensures forall i, j :: 0 <= i < j < |Table| ==> ShortcutKey(Table[i].shortcut) != ShortcutKey(Table[j].shortcut)
  {
    forall i, j | 0 <= i < j < |Table|
      ensures ShortcutKey(Table[i].shortcut) != ShortcutKey(Table[j].shortcut)
    {
      var a := Table[i].shortcut;
      var b := Table[j].shortcut;
      TableKeysLower(i);
      TableKeysLower(j);
      ComboInjective(a.ctrl, a.meta, a.shift, a.alt, a.key, b.ctrl, b.meta, b.shift, b.alt, b.key);
    }
  }

  /** Every action of the table is reachable by its own combination. */
  lemma EveryActionReachable()
    ensures forall i :: 0 <= i < |Table| ==>
              ShortcutKey(Table[i].shortcut) in MapOf(Table) && MapOf(Table)[ShortcutKey(Table[i].shortcut)] == Table[i]
  {
    TableKeysDistinct();
    MapOfLookup(Table);
  }

  // --------------------------------------------------------- handleKeyPress

  /** The event target's `tagName` and `isContentEditable`. */
  datatype Target = Target(tagName: string, isContentEditable: bool)

  datatype KeyEvent = KeyEvent(key: string, ctrlKey: bool, metaKey: bool, shiftKey: bool, altKey: bool, target: Target)

  predicate Editable(t: Target)
  {
    t.tagName == "INPUT" || t.tagName == "TEXTAREA" || t.isContentEditable
  }

  /** The lookup key an event builds, with the same construction as the
      table's. */
  function EventKey(ev: KeyEvent): string
  {
    Combo(ev.ctrlKey, ev.metaKey, ev.shiftKey, ev.altKey, ev.key)
  }

  /** `handleKeyPress(event)`: the action whose handler runs (after
      `preventDefault` and `stopPropagation`), or None when the event is
      left alone. `handlers` are the actions with a truthy registered
      handler. */
  function HandleKeyPress(ev: KeyEvent, handlers: set<string>): Option<string>
  {
    if Editable(ev.target) && ev.key != "/" then None
    else
      var k := EventKey(ev);
      if k in MapOf(Table) && MapOf(Table)[k].action in handlers then Some(MapOf(Table)[k].action)
      else None
  }

  /** Typing in an input, a textarea or an editable element never triggers a
      shortcut, except with the '/' key. */
  lemma TypingIsIgnored(ev: KeyEvent, handlers: set<string>)
    requires Editable(ev.target) && ev.key != "/"
    ensures HandleKeyPress(ev, handlers) == None
  {
  }

  /** A handler runs only for a mapped key and a registered action. */
  lemma RunsOnlyRegistered(ev: KeyEvent, handlers: set<string>)
    ensures HandleKeyPress(ev, handlers).Some? ==>
              && EventKey(ev) in MapOf(Table)
              && HandleKeyPress(ev, handlers).value == MapOf(Table)[EventKey(ev)].action
              && HandleKeyPress(ev, handlers).value in handlers
  {
  }

  /** An event outside editable fields that reproduces a table entry's
      modifiers and key (in any case) runs exactly that entry's action when
      its handler is registered, and nothing otherwise. */
  lemma EntryTriggers(i: int, ev: KeyEvent, handlers: set<string>)
    requires 0 <= i < |Table|
    requires !Editable(ev.target)
    requires var s := Table[i].shortcut;
             ev.ctrlKey == s.ctrl && ev.metaKey == s.meta && ev.shiftKey == s.shift && ev.altKey == s.alt
             && Lower(ev.key) == Lower(s.key)
    ensures HandleKeyPress(ev, handlers) == if Table[i].action in handlers then Some(Table[i].action) else None
  {
    EveryActionReachable();
    assert EventKey(ev) == ShortcutKey(Table[i].shortcut);
  }

  // ------------------------------------------------------ the help display

  /** The parts `getShortcutDisplay` collects. The meta glyph is the text
      the source file holds at that point: the UTF-8 bytes of U+2318 read as
      Windows-1252, i.e. "âŒ˜". */
  function DisplayParts(s: Shortcut): (parts: seq<string>)
    ensures |parts| >= 1 && parts[|parts| - 1] == Upper(s.key)
    ensures |parts| == 1 + (if s.ctrl then 1 else 0) + (if s.meta then 1 else 0) + (if s.shift then 1 else 0) + (if s.alt then 1 else 0)
    ensures s.ctrl ==> parts[0] == "Ctrl"
  {
    (if s.ctrl then ["Ctrl"] else []) + (if s.meta then ["\U{00E2}\U{0152}\U{02DC}"] else []) +
    (if s.shift then ["Shift"] else []) + (if s.alt then ["Alt"] else []) + [Upper(s.key)]
  }

  /** `parts.join(sep)`. */
  function Join(parts: seq<string>, sep: string): string
  {
    if parts == [] then ""
    else if |parts| == 1 then parts[0]
    else Join(parts[..|parts| - 1], sep) + sep + parts[|parts| - 1]
  }

  /** `getShortcutDisplay(shortcut)`. */
  function Display(s: Shortcut): string
  {
    Join(DisplayParts(s), " + ")
  }

  /** The display ends with the upper-cased key, and a shortcut without
      modifiers displays as its key alone. */
  lemma DisplayShape(s: Shortcut)
    ensures var d := Display(s);
            && |Upper(s.key)| <= |d| && d[|d| - |Upper(s.key)|..] == Upper(s.key)
            && (!s.ctrl && !s.meta && !s.shift && !s.alt ==> d == Upper(s.key))
  {
    var parts := DisplayParts(s);
    if |parts| > 1 {
      var d := Join(parts[..|parts| - 1], " + ") + " + " + parts[|parts| - 1];
      assert d[|d| - |Upper(s.key)|..] == Upper(s.key);
    }
  }

  /** Two parts join around one separator. */
  lemma JoinTwo(a: string, b: string, sep: string)
    ensures Join([a, b], sep) == a + sep + b
  {
    assert [a, b][..1] == [a];
  }

  /** Three parts join around two separators. */
  lemma JoinThree(a: string, b: string, c: string, sep: string)
    ensures Join([a, b, c], sep) == a + sep + b + sep + c
  {
    assert [a, b, c][..2] == [a, b];
    JoinTwo(a, b, sep);
  }

  /** The help string of the command palette entry. */
  lemma DisplayPaletteExample()
    ensures Display(Table[0].shortcut) == "Ctrl + K"
  {
    assert Upper("k") == "K" by { assert Upper("k")[0] == 'K'; }
    assert DisplayParts(Table[0].shortcut) == ["Ctrl", "K"];
    JoinTwo("Ctrl", "K", " + ");
  }

  /** The help string of the debug panel entry. */
  lemma DisplayDebugExample()
    ensures Display(Table[6].shortcut) == "Ctrl + Shift + D"
  {
    assert Upper("d") == "D" by { assert Upper("d")[0] == 'D'; }
    assert DisplayParts(Table[6].shortcut) == ["Ctrl", "Shift", "D"];
    JoinThree("Ctrl", "Shift", "D", " + ");
  }

  /** The help string of the help entry. */
  lemma DisplayHelpExample()
    ensures Display(Table[7].shortcut) == "Shift + ?"
  {
    assert Upper("?") == "?" by { assert Upper("?")[0] == '?'; }
    assert DisplayParts(Table[7].shortcut) == ["Shift", "?"];
    JoinTwo("Shift", "?", " + ");
  }

  // ------------------------------------------------------------ grouping

  /** The group of an action, by the first rule that applies. */
  function Category(action: string): string
  {
    if StartsWith(action, "GOTO_") then "Navigation"
    else if Includes(action, "DEBUG") || Includes(action, "HELP") then "Debug"
    else if Includes(action, "EXPORT") || Includes(action, "BACKUP") then "Data"
    else if Includes(action, "LOCK") then "Security"
    else "General"
  }

  /** `{action, shortcut, display, description}`. */
  datatype Item = Item(action: string, shortcut: Shortcut, display: string, description: string)

  function ItemOf(e: Entry): Item
  {
    Item(e.action, e.shortcut, Display(e.shortcut), e.shortcut.description)
  }

  /** The `reduce` of `groupedShortcuts` over the given entries. */
  function Grouped(entries: seq<Entry>): map<string, seq<Item>>
  {
    if entries == [] then map[]
    else
      var acc := Grouped(entries[..|entries| - 1]);
      var e := entries[|entries| - 1];
      var c := Category(e.action);
      var group := if c in acc then acc[c] else [];
      acc[c := group + [ItemOf(e)]]
  }

  /** The items of the entries that fall in group `c`, in order. */
  function ItemsIn(entries: seq<Entry>, c: string): seq<Item>
  {
    if entries == [] then []
    else
      var e := entries[|entries| - 1];
      ItemsIn(entries[..|entries| - 1], c) + (if Category(e.action) == c then [ItemOf(e)] else [])
  }

  /** The `reduce` that builds `groupedShortcuts` from the entries of the
      table (`GroupShortcuts(Table)`), pushing into per-group arrays. */
  method GroupShortcuts(entries: seq<Entry>) returns (acc: map<string, seq<Item>>)
    ensures acc == Grouped(entries)
  {
    acc := map[];
    for i := 0 to |entries|
      invariant acc == Grouped(entries[..i])
    {
      assert entries[..i + 1][..i] == entries[..i];
      var e := entries[i];
      var c := Category(e.action);
      if c !in acc {
        acc := acc[c := []];
      }
      acc := acc[c := acc[c] + [ItemOf(e)]];
    }
    assert entries[..|entries|] == entries;
  }

  /** Each group lists, in table order, exactly the entries of its category,
      and a group exists only when some entry falls in it. */
  lemma {:induction false} GroupedIsPartition(entries: seq<Entry>)
    ensures forall c :: c in Grouped(entries) <==> ItemsIn(entries, c) != []
    ensures forall c :: c in Grouped(entries) ==> Grouped(entries)[c] == ItemsIn(entries, c)
  {
    if entries != [] {
      GroupedIsPartition(entries[..|entries| - 1]);
    }
  }

  /** Every item of a group belongs to that group's category, so no action
      appears in two groups. */
  lemma {:induction false} ItemsInCategory(entries: seq<Entry>, c: string)
    ensures forall it :: it in ItemsIn(entries, c) ==> Category(it.action) == c
  {
    if entries != [] {
      ItemsInCategory(entries[..|entries| - 1], c);
    }
  }

  /** Every table action is in the group of its category and in no other. */
  lemma ExactlyOneGroup(i: int, c: string)
    requires 0 <= i < |Table|
    ensures var g := Grouped(Table);
            var it := ItemOf(Table[i]);
            (c in g && it in g[c]) <==> c == Category(Table[i].action)
  {
    GroupedIsPartition(Table);
    ItemsInCategory(Table, c);
    InItemsIn(Table, i);
  }

  lemma {:induction false} InItemsIn(entries: seq<Entry>, i: int)
    requires 0 <= i < |entries|
    ensures ItemOf(entries[i]) in ItemsIn(entries, Category(entries[i].action))
  {
    if i < |entries| - 1 {
      InItemsIn(entries[..|entries| - 1], i);
    }
  }

  /** The groups of the table's actions, one rule at a time. */
  lemma NavigationExample()
    ensures Category("GOTO_SETTINGS") == "Navigation"
  {
    StripPrefix("GOTO_", "SETTINGS");
    assert "GOTO_SETTINGS" == "GOTO_" + "SETTINGS";
  }

  lemma DebugExamples()
    ensures Category("OPEN_DEBUG") == "Debug" && Category("TOGGLE_HELP") == "Debug"
  {
    FirstCharDiffers("OPEN_DEBUG", "GOTO_");
    assert At("OPEN_DEBUG", "DEBUG", 5);
    FirstCharDiffers("TOGGLE_HELP", "GOTO_");
    assert At("TOGGLE_HELP", "HELP", 7);
  }

  lemma ExportExample()
    ensures Category("EXPORT_DATA") == "Data"
  {
    assert !StartsWith("EXPORT_DATA", "GOTO_") by { FirstCharDiffers("EXPORT_DATA", "GOTO_"); }
    assert !Includes("EXPORT_DATA", "DEBUG") by { MissingChar("EXPORT_DATA", "DEBUG", 'B'); }
    assert !Includes("EXPORT_DATA", "HELP") by { MissingChar("EXPORT_DATA", "HELP", 'H'); }
    assert Includes("EXPORT_DATA", "EXPORT") by { assert At("EXPORT_DATA", "EXPORT", 0); }
  }

  lemma BackupExample()
    ensures Category("CREATE_BACKUP") == "Data"
  {
    assert !StartsWith("CREATE_BACKUP", "GOTO_") by { FirstCharDiffers("CREATE_BACKUP", "GOTO_"); }
    assert !Includes("CREATE_BACKUP", "DEBUG") by { MissingChar("CREATE_BACKUP", "DEBUG", 'D'); }
    assert !Includes("CREATE_BACKUP", "HELP") by { MissingChar("CREATE_BACKUP", "HELP", 'H'); }
    assert Includes("CREATE_BACKUP", "BACKUP") by { assert At("CREATE_BACKUP", "BACKUP", 7); }
  }

  lemma SecurityExample()
    ensures Category("LOCK_APP") == "Security"
  {
    assert !StartsWith("LOCK_APP", "GOTO_") by { FirstCharDiffers("LOCK_APP", "GOTO_"); }
    assert !Includes("LOCK_APP", "DEBUG") by { MissingChar("LOCK_APP", "DEBUG", 'D'); }
    assert !Includes("LOCK_APP", "HELP") by { MissingChar("LOCK_APP", "HELP", 'H'); }
    assert !Includes("LOCK_APP", "EXPORT") by { MissingChar("LOCK_APP", "EXPORT", 'X'); }
    assert !Includes("LOCK_APP", "BACKUP") by { MissingChar("LOCK_APP", "BACKUP", 'B'); }
    assert Includes("LOCK_APP", "LOCK") by { assert At("LOCK_APP", "LOCK", 0); }
  }

  lemma GeneralExamples()
    ensures Category("TOGGLE_THEME") == "General"
    ensures Category("SEARCH") == "General"
  {
    assert !StartsWith("TOGGLE_THEME", "GOTO_") by { FirstCharDiffers("TOGGLE_THEME", "GOTO_"); }
    assert !Includes("TOGGLE_THEME", "DEBUG") by { MissingChar("TOGGLE_THEME", "DEBUG", 'D'); }
    assert !Includes("TOGGLE_THEME", "HELP") by { MissingChar("TOGGLE_THEME", "HELP", 'P'); }
    assert !Includes("TOGGLE_THEME", "EXPORT") by { MissingChar("TOGGLE_THEME", "EXPORT", 'X'); }
    assert !Includes("TOGGLE_THEME", "BACKUP") by { MissingChar("TOGGLE_THEME", "BACKUP", 'B'); }
    assert !Includes("TOGGLE_THEME", "LOCK") by { MissingChar("TOGGLE_THEME", "LOCK", 'C'); }
    assert !StartsWith("SEARCH", "GOTO_") by { FirstCharDiffers("SEARCH", "GOTO_"); }
    assert !Includes("SEARCH", "DEBUG") by { MissingChar("SEARCH", "DEBUG", 'D'); }
    assert !Includes("SEARCH", "HELP") by { MissingChar("SEARCH", "HELP", 'L'); }
    assert !Includes("SEARCH", "EXPORT") by { MissingChar("SEARCH", "EXPORT", 'X'); }
    assert !Includes("SEARCH", "BACKUP") by { MissingChar("SEARCH", "BACKUP", 'B'); }
    assert !Includes("SEARCH", "LOCK") by { MissingChar("SEARCH", "LOCK", 'L'); }
  }
}
