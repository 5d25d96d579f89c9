/**
 * Global keyboard shortcuts: a combination such as "ctrl+k" is normalised once
 * into a key and the modifiers it requires, and a key press fires the handler
 * when it matches any of the combinations.
 */
module GlobalShortcut {
  import opened Strings

  datatype NormalizedShortcut = NormalizedShortcut(key: string, ctrl: bool, meta: bool, shift: bool, alt: bool)

  /** The fields of a `keydown` event the listener reads. */
  datatype KeyPress = KeyPress(key: string, ctrlKey: bool, metaKey: bool, shiftKey: bool, altKey: bool)

  /** A hook argument: one combination or several. */
  datatype Shortcut = Single(combo: string) | Several(combos: seq<string>)

  function TrimParts(parts: seq<string>): (trimmed: seq<string>)
    ensures |trimmed| == |parts|
    ensures forall k :: 0 <= k < |parts| ==> trimmed[k] == Trim(parts[k])
  {
    seq(|parts|, k requires 0 <= k < |parts| => Trim(parts[k]))
  }

  /**
   * `normalizeShortcut`: lowercase, split on "+", trim every part; the last part
   * (popped off) is the key and the remaining parts name the modifiers. The split
   * always yields a part, so the `?? ''` fallback never applies.
   */
  function NormalizeShortcut(shortcut: string): (normalized: NormalizedShortcut)
    ensures '+' !in normalized.key
  {
    TrimKeepsOut('+', Split(Lower(shortcut), '+')[|Split(Lower(shortcut), '+')| - 1]);
    FromParts(TrimParts(Split(Lower(shortcut), '+')))
  }

  /** The popped last part is the key; each flag says whether its word is among the rest. */
  function FromParts(parts: seq<string>): NormalizedShortcut
    requires |parts| >= 1
  {
    var modifiers := parts[..|parts| - 1];
    NormalizedShortcut(parts[|parts| - 1], "ctrl" in modifiers, "meta" in modifiers, "shift" in modifiers, "alt" in modifiers)
  }

  /** A part written the way `normalizeShortcut` leaves it: lowercase, trimmed, without "+". */
  predicate IsCanonicalPart(part: string) {
    '+' !in part && Lower(part) == part && Trim(part) == part
  }

  lemma {:induction false} LowerJoin(parts: seq<string>)
    requires forall k :: 0 <= k < |parts| ==> Lower(parts[k]) == parts[k]
    ensures Lower(Join(parts, '+')) == Join(parts, '+')
  {
    if |parts| > 1 {
      LowerJoin(parts[1..]);
      LowerAppend(parts[0] + ['+'], Join(parts[1..], '+'));
      LowerAppend(parts[0], ['+']);
    }
  }

  /**
   * Writing modifiers and a key in canonical form, joined by "+", and normalising
   * gives back the key, with exactly the named modifiers required.
   */
  lemma NormalizeJoined(modifiers: seq<string>, key: string)
    requires forall k :: 0 <= k < |modifiers| ==> IsCanonicalPart(modifiers[k])
    requires IsCanonicalPart(key)
    ensures NormalizeShortcut(Join(modifiers + [key], '+')) ==
      NormalizedShortcut(key, "ctrl" in modifiers, "meta" in modifiers, "shift" in modifiers, "alt" in modifiers)
  {
    var parts := modifiers + [key];
    assert forall k :: 0 <= k < |parts| ==> IsCanonicalPart(parts[k]);
    LowerJoin(parts);
    SplitJoin(parts, '+');
    assert TrimParts(parts) == parts;
    assert parts[..|parts| - 1] == modifiers;
  }

  lemma CanonicalWord(word: string)
    requires forall i :: 0 <= i < |word| ==> 'a' <= word[i] <= 'z'
    ensures IsCanonicalPart(word)
  {
    if word != [] {
      assert !IsWhitespace(word[0]) && !IsWhitespace(word[|word| - 1]);
      assert TrimStart(word) == word;
    }
  }

  lemma JoinTwo(a: string, b: string)
    ensures Join([a] + [b], '+') == a + "+" + b
  {
    assert ([a] + [b])[1..] == [b];
  }

  /** "modifier+key" for two lowercase words normalises to that key with that one modifier. */
  lemma NormalizeTwoWords(modifier: string, key: string)
    requires IsCanonicalPart(modifier) && IsCanonicalPart(key)
    ensures NormalizeShortcut(modifier + "+" + key) == NormalizedShortcut(key,
      modifier == "ctrl", modifier == "meta", modifier == "shift", modifier == "alt")
  {
    NormalizeJoined([modifier], key);
    JoinTwo(modifier, key);
  }

  /**
   * The search box's combinations, "ctrl+k" and "meta+k", for any canonical key
   * (the list uses "k", which is canonical): each requires its one modifier.
   */
  lemma SearchCombosNormalized(key: string)
    requires IsCanonicalPart(key)
    ensures NormalizeShortcut("ctrl" + "+" + key) == NormalizedShortcut(key, true, false, false, false)
    ensures NormalizeShortcut("meta" + "+" + key) == NormalizedShortcut(key, false, true, false, false)
  {
    CanonicalWord("ctrl");
    CanonicalWord("meta");
    NormalizeTwoWords("ctrl", key);
    NormalizeTwoWords("meta", key);
  }

  lemma SearchKeyCanonical()
    ensures IsCanonicalPart("k")
  {
    CanonicalWord("k");
  }

  /** `matchesShortcut`: the key matches, ignoring case, and every required modifier is held. */
  predicate MatchesShortcut(press: KeyPress, shortcut: NormalizedShortcut) {
    Lower(press.key) == shortcut.key &&
    (!shortcut.ctrl || press.ctrlKey) &&
    (!shortcut.meta || press.metaKey) &&
    (!shortcut.shift || press.shiftKey) &&
    (!shortcut.alt || press.altKey)
  }

  function RequiredModifiers(shortcut: NormalizedShortcut): set<string> {
    (if shortcut.ctrl then {"ctrl"} else {}) + (if shortcut.meta then {"meta"} else {}) +
    (if shortcut.shift then {"shift"} else {}) + (if shortcut.alt then {"alt"} else {})
  }

  function HeldModifiers(press: KeyPress): set<string> {
    (if press.ctrlKey then {"ctrl"} else {}) + (if press.metaKey then {"meta"} else {}) +
    (if press.shiftKey then {"shift"} else {}) + (if press.altKey then {"alt"} else {})
  }

  /**
   * A press matches exactly when its key matches and the required modifiers are
   * among the held ones: extra modifiers never prevent a match.
   */
  lemma MatchesIffRequiredHeld(press: KeyPress, shortcut: NormalizedShortcut)
    ensures MatchesShortcut(press, shortcut) <==>
      Lower(press.key) == shortcut.key && RequiredModifiers(shortcut) <= HeldModifiers(press)
  {
    var required, held := RequiredModifiers(shortcut), HeldModifiers(press);
    assert "ctrl" in required <==> shortcut.ctrl;
    assert "meta" in required <==> shortcut.meta;
    assert "shift" in required <==> shortcut.shift;
    assert "alt" in required <==> shortcut.alt;
    assert "ctrl" in held <==> press.ctrlKey;
    assert "meta" in held <==> press.metaKey;
    assert "shift" in held <==> press.shiftKey;
    assert "alt" in held <==> press.altKey;
  }

  /** `normalized.some(...)`, scanned from the left. */
  function AnyMatches(press: KeyPress, normalized: seq<NormalizedShortcut>): (fires: bool)
    ensures fires <==> exists k :: 0 <= k < |normalized| && MatchesShortcut(press, normalized[k])
  {
    if normalized == [] then false
    else MatchesShortcut(press, normalized[0]) || AnyMatches(press, normalized[1..])
  }

  function Combos(shortcut: Shortcut): seq<string> {
    match shortcut
    case Single(combo) => [combo]
    case Several(combos) => combos
  }

  function NormalizeAll(combos: seq<string>): (normalized: seq<NormalizedShortcut>)
    ensures |normalized| == |combos|
    ensures forall k :: 0 <= k < |combos| ==> normalized[k] == NormalizeShortcut(combos[k])
  {
    seq(|combos|, k requires 0 <= k < |combos| => NormalizeShortcut(combos[k]))
  }

  /** The listener's test: whether a press runs the handler. */
  function ShortcutFires(shortcut: Shortcut, press: KeyPress): bool
  {
    AnyMatches(press, NormalizeAll(Combos(shortcut)))
  }

  /** A press runs the handler exactly when it matches at least one of the combinations. */
  lemma ShortcutFiresIff(shortcut: Shortcut, press: KeyPress)
    ensures ShortcutFires(shortcut, press) <==>
      exists k :: 0 <= k < |Combos(shortcut)| && MatchesShortcut(press, NormalizeShortcut(Combos(shortcut)[k]))
  {
    var combos := Combos(shortcut);
    var normalized := NormalizeAll(combos);
    if ShortcutFires(shortcut, press) {
      var k :| 0 <= k < |normalized| && MatchesShortcut(press, normalized[k]);
      assert MatchesShortcut(press, NormalizeShortcut(combos[k]));
    }
    if k :| 0 <= k < |combos| && MatchesShortcut(press, NormalizeShortcut(combos[k])) {
      assert MatchesShortcut(press, normalized[k]);
    }
  }

  /** The search box's shortcut fires on its key with Ctrl or Meta held, whatever else is held. */
  lemma SearchShortcutFires(key: string, press: KeyPress)
    requires IsCanonicalPart(key)
    ensures ShortcutFires(Several(["ctrl" + "+" + key, "meta" + "+" + key]), press) <==>
      Lower(press.key) == key && (press.ctrlKey || press.metaKey)
  {
    var combos := ["ctrl" + "+" + key, "meta" + "+" + key];
    SearchCombosNormalized(key);
    ShortcutFiresIff(Several(combos), press);
    assert combos[0] == "ctrl" + "+" + key && combos[1] == "meta" + "+" + key;
    if ShortcutFires(Several(combos), press) {
      var k :| 0 <= k < 2 && MatchesShortcut(press, NormalizeShortcut(combos[k]));
      assert k == 0 || k == 1;
    }
    if Lower(press.key) == key && press.ctrlKey {
      assert MatchesShortcut(press, NormalizeShortcut(combos[0]));
    }
    if Lower(press.key) == key && press.metaKey {
      assert MatchesShortcut(press, NormalizeShortcut(combos[1]));
    }
  }
}
