/**
 * The letter keyboard (`DynamicKeyboardView`): what a key shows and commits under shift, the alternates a
 * long press offers and the hint drawn in the key's corner, the column arithmetic that centres each letter
 * row, and the per-key touch handler (down, long-press timer, move, up or cancel).
 */
module KeyboardView {
  import opened Wrappers
  import opened Chars
  import opened Layout
  import opened Popup

  // The Cyrillic letters of the two Russian special cases: е, ё, ь and ъ, each in both cases.
  const Ie: char := '\U{435}'
  const IeUpper: char := '\U{415}'
  const Yo: char := '\U{451}'
  const YoUpper: char := '\U{401}'
  const SoftSign: char := '\U{44C}'
  const SoftSignUpper: char := '\U{42C}'
  const HardSign: char := '\U{44A}'
  const HardSignUpper: char := '\U{42A}'

  // ---------- casing ----------

  /** `outputFor`: what a short press commits, the label upper-cased under shift and exactly as written otherwise. */
  function OutputFor(base: string, shift: bool): (r: string)
    ensures |r| == |base|
    ensures shift ==> forall i :: 0 <= i < |r| ==> !IsLowerCase(r[i]) && (!IsLowerCase(base[i]) ==> r[i] == base[i])
    ensures !shift ==> r == base
  {
    if shift then Upper(base) else base
  }

  /** `displayMain`: the text drawn on a key face, upper-cased under shift and lower-cased otherwise. */
  function DisplayMain(text: string, shift: bool): (r: string)
    ensures |r| == |text|
    ensures shift ==> forall i :: 0 <= i < |r| ==> !IsLowerCase(r[i]) && (!IsLowerCase(text[i]) ==> r[i] == text[i])
    ensures !shift ==> forall i :: 0 <= i < |r| ==> !IsUpperCase(r[i]) && (!IsUpperCase(text[i]) ==> r[i] == text[i])
  {
    if shift then Upper(text) else Lower(text)
  }

  /** The face of a key shows what a short press commits exactly when shift is on or the label has no
      upper-case letter: an upper-case label draws lower-case but commits as written. */
  lemma FaceShowsOutput(s: string, shift: bool)
    ensures DisplayMain(s, shift) == OutputFor(s, shift) <==> shift || forall i :: 0 <= i < |s| ==> !IsUpperCase(s[i])
  {
    LowerFixedIff(s);
  }

  // ---------- long-press alternates ----------

  /** Every piece trimmed (`map { it.trim() }`). */
  function TrimAll(parts: seq<string>): (r: seq<string>)
    ensures |r| == |parts| && forall i :: 0 <= i < |parts| ==> r[i] == Trim(parts[i])
    decreases |parts|
  {
    if parts == [] then [] else [Trim(parts[0])] + TrimAll(parts[1..])
  }

  /** The non-empty pieces, in order (`filter { it.isNotEmpty() }`). */
  function NonEmpty(xs: seq<string>): (r: seq<string>)
    ensures |r| <= |xs|
    ensures forall o :: o in r ==> o != [] && o in xs
    decreases |xs|
  {
    if xs == [] then []
    else (if xs[0] == [] then [] else [xs[0]]) + NonEmpty(xs[1..])
  }

  /** The trimmed, non-empty pieces, in order. */
  function CleanPieces(parts: seq<string>): (r: seq<string>)
    ensures |r| <= |parts|
    ensures forall o :: o in r ==> o != []
  {
    NonEmpty(TrimAll(parts))
  }

  /** The options a `longPress` attribute lists: its comma pieces trimmed, the empty ones dropped; none without it. */
  function LongPressOptions(lp: Option<string>): (opts: seq<string>)
    ensures lp.None? ==> opts == []
    ensures lp.Some? ==> |opts| <= |Split(lp.value, ',')|
  {
    if lp.None? then [] else CleanPieces(Split(lp.value, ','))
  }

  lemma {:induction false} NonEmptyAppend(a: seq<string>, b: seq<string>)
    ensures NonEmpty(a + b) == NonEmpty(a) + NonEmpty(b)
    decreases |a|
  {
    if a == [] {
      assert a + b == b;
    } else {
      var h := if a[0] == [] then [] else [a[0]];
      assert (a + b)[0] == a[0];
      assert (a + b)[1..] == a[1..] + b;
      NonEmptyAppend(a[1..], b);
      assert h + (NonEmpty(a[1..]) + NonEmpty(b)) == (h + NonEmpty(a[1..])) + NonEmpty(b);
    }
  }

  /** Trimming works piece by piece: trimming `a + b` is trimming `a`, then `b`. */
  lemma {:induction false} TrimAllAppend(a: seq<string>, b: seq<string>)
    ensures TrimAll(a + b) == TrimAll(a) + TrimAll(b)
    decreases |a|
  {
    if a == [] {
      assert a + b == b;
    } else {
      assert (a + b)[0] == a[0];
      assert (a + b)[1..] == a[1..] + b;
      TrimAllAppend(a[1..], b);
    }
  }

  /** Cleaning works piece by piece: order is kept and nothing moves across pieces. */
  lemma CleanPiecesAppend(a: seq<string>, b: seq<string>)
    ensures CleanPieces(a + b) == CleanPieces(a) + CleanPieces(b)
  {
    TrimAllAppend(a, b);
    NonEmptyAppend(TrimAll(a), TrimAll(b));
  }

  /** Every cleaned piece is trimmed, and holds no separator when no input piece did. */
  lemma CleanPiecesClean(parts: seq<string>, sep: char)
    requires forall i :: 0 <= i < |parts| ==> sep !in parts[i]
    ensures forall o :: o in CleanPieces(parts) ==> Trimmed(o) && sep !in o
  {
    var t := TrimAll(parts);
    forall i | 0 <= i < |parts|
      ensures Trimmed(t[i]) && sep !in t[i]
    {
      TrimIsTrimmed(parts[i]);
      TrimAddsNothing(parts[i], sep);
    }
  }

  lemma {:induction false} NonEmptyFixed(xs: seq<string>)
    requires forall i :: 0 <= i < |xs| ==> xs[i] != []
    ensures NonEmpty(xs) == xs
    decreases |xs|
  {
    if xs != [] {
      NonEmptyFixed(xs[1..]);
      assert [xs[0]] + xs[1..] == xs;
    }
  }

  /** Pieces that are already clean come through unchanged. */
  lemma CleanPiecesFixed(parts: seq<string>)
    requires forall i :: 0 <= i < |parts| ==> parts[i] != [] && Trimmed(parts[i])
    ensures CleanPieces(parts) == parts
  {
    forall i | 0 <= i < |parts|
      ensures TrimAll(parts)[i] == parts[i]
    {
      TrimOfTrimmed(parts[i]);
    }
    assert TrimAll(parts) == parts;
    NonEmptyFixed(parts);
  }

  /** Clean options written as an attribute, separated by commas, parse back to themselves. */
  lemma OptionsRoundTrip(opts: seq<string>)
    requires |opts| >= 1
    requires forall i :: 0 <= i < |opts| ==> opts[i] != [] && Trimmed(opts[i]) && ',' !in opts[i]
    ensures LongPressOptions(Some(Join(opts, ','))) == opts
  {
    SplitJoin(opts, ',');
    CleanPiecesFixed(opts);
  }

  function YoFor(shift: bool): string {
    if shift then [YoUpper] else [Yo]
  }

  function HardSignFor(shift: bool): string {
    if shift then [HardSignUpper] else [HardSign]
  }

  predicate IsIe(s: string) {
    |s| == 1 && (s[0] == Ie || s[0] == IeUpper)
  }

  predicate IsSoftSign(s: string) {
    |s| == 1 && (s[0] == SoftSign || s[0] == SoftSignUpper)
  }

  /** The Russian special cases layered on the listed options: ё first for е/Е, and ъ last for ь/Ь unless it is
      already offered; the case of ё and ъ follows shift. */
  function Augment(s: string, isRu: bool, shift: bool, listed: seq<string>): seq<string> {
    var all := (if isRu && IsIe(s) then [YoFor(shift)] else []) + listed;
    if isRu && IsSoftSign(s) && HardSignFor(shift) !in all then all + [HardSignFor(shift)] else all
  }

  /** The long-press options of a key: its attribute's options with the Russian special cases applied. */
  function Alternates(k: KeySpec, isRu: bool, shift: bool): seq<string> {
    Augment(k.labelText, isRu, shift, LongPressOptions(k.longPress))
  }

  /** `buildOptions`: collects the options into a list the way `Alternates` describes them. */
  method BuildOptions(k: KeySpec, isRu: bool, shift: bool) returns (opts: seq<string>)
    ensures opts == Alternates(k, isRu, shift)
  {
    opts := [];
    if isRu && IsIe(k.labelText) {
      opts := opts + [YoFor(shift)];
    }
    opts := opts + LongPressOptions(k.longPress);
    assert opts == (if isRu && IsIe(k.labelText) then [YoFor(shift)] else []) + LongPressOptions(k.longPress);
    var hard := HardSignFor(shift);
    if isRu && IsSoftSign(k.labelText) && hard !in opts {
      opts := opts + [hard];
    }
  }

  /** The rules of the special cases: nothing changes off the Russian layout or for other letters, ё is put in
      front, ъ is added at the end exactly when it is missing; no option is empty, untrimmed or holds a comma
      when no listed one does. */
  lemma AugmentRules(s: string, isRu: bool, shift: bool, listed: seq<string>)
    ensures !isRu || (!IsIe(s) && !IsSoftSign(s)) ==> Augment(s, isRu, shift, listed) == listed
    ensures isRu && IsIe(s) ==> Augment(s, isRu, shift, listed) == [YoFor(shift)] + listed
    ensures isRu && IsSoftSign(s) ==>
      && HardSignFor(shift) in Augment(s, isRu, shift, listed)
      && Augment(s, isRu, shift, listed) == listed + (if HardSignFor(shift) in listed then [] else [HardSignFor(shift)])
    ensures (forall o :: o in listed ==> o != [] && Trimmed(o) && ',' !in o) ==>
      forall o :: o in Augment(s, isRu, shift, listed) ==> o != [] && Trimmed(o) && ',' !in o
  {
    if isRu && IsIe(s) {
      assert !IsSoftSign(s);
    }
    if isRu && IsSoftSign(s) {
      assert !IsIe(s);
      assert [] + listed == listed;
    }
  }

  /** Every option an attribute lists is a non-empty, trimmed string without a comma. */
  lemma LongPressOptionsClean(lp: Option<string>)
    ensures forall o :: o in LongPressOptions(lp) ==> o != [] && Trimmed(o) && ',' !in o
  {
    if lp.Some? {
      CleanPiecesClean(Split(lp.value, ','), ',');
    }
  }

  /** ё is put first even when the attribute already lists it, so it is then offered twice. */
  lemma YoOfferedTwice(lp: string)
    requires lp == [Yo]
    ensures Alternates(KeySpec([Ie], Some(lp)), true, false) == [[Yo], [Yo]]
  {
    OptionsRoundTrip([lp]);
    assert Join([lp], ',') == lp;
    assert IsIe([Ie]);
  }

  /** `computeAltHintForDisplay`: the first comma piece of the attribute, trimmed, when that is not empty;
      otherwise on a Russian layout ё for е/Е and ъ for ь/Ь, always lower-case; otherwise no hint. */
  /** The first comma piece of `longPress`, trimmed; empty without the attribute. */
  function FirstPiece(lp: Option<string>): string {
    if lp.Some? then Trim(Split(lp.value, ',')[0]) else []
  }

  function AltHint(k: KeySpec, isRu: bool): (h: Option<string>)
    ensures h.Some? ==> h.value != []
    ensures !isRu && k.longPress.None? ==> h == None
  {
    var explicit := FirstPiece(k.longPress);
    if explicit != [] then Some(explicit)
    else if isRu && IsIe(k.labelText) then Some([Yo])
    else if isRu && IsSoftSign(k.labelText) then Some([HardSign])
    else None
  }

  /** With shift off: a hint outside the Russian layout is the first option a long press offers, an unlisted е on
      the Russian layout shows the ё that the long press puts first, and on either layout a hint is one of the
      options. */
  lemma HintIsFirstOption(k: KeySpec, isRu: bool)
    ensures !isRu && AltHint(k, isRu).Some? ==>
      |Alternates(k, isRu, false)| > 0 && AltHint(k, isRu).value == Alternates(k, isRu, false)[0]
    ensures isRu && IsIe(k.labelText) && LongPressOptions(k.longPress) == [] ==>
      AltHint(k, isRu) == Some(Alternates(k, isRu, false)[0])
    ensures AltHint(k, isRu).Some? ==> AltHint(k, isRu).value in Alternates(k, isRu, false)
  {
    if k.longPress.Some? {
      var parts := Split(k.longPress.value, ',');
      assert parts == [parts[0]] + parts[1..];
      CleanPiecesAppend([parts[0]], parts[1..]);
    }
  }

  /** The first comma piece, when not blank, is one of the listed options. */
  lemma FirstPieceListed(lp: Option<string>)
    ensures FirstPiece(lp) != [] ==> FirstPiece(lp) in LongPressOptions(lp)
  {
    if lp.Some? {
      var parts := Split(lp.value, ',');
      assert parts == [parts[0]] + parts[1..];
      CleanPiecesAppend([parts[0]], parts[1..]);
    }
  }

  /** The hint is fixed when the key is built, while the options follow shift at long-press time. Under either
      shift a hint taken from the attribute is still offered; the lower-case ё/ъ fallback is matched by the
      options only in the case shift gives, so with shift on an unlisted е hints ё but offers only Ё. */
  lemma HintUnderShift(k: KeySpec, isRu: bool, shift: bool)
    ensures FirstPiece(k.longPress) != [] ==> AltHint(k, isRu).value in Alternates(k, isRu, shift)
    ensures FirstPiece(k.longPress) == [] && AltHint(k, isRu).Some? ==>
      || (AltHint(k, isRu) == Some(YoFor(false)) && Alternates(k, isRu, shift)[0] == YoFor(shift))
      || (AltHint(k, isRu) == Some(HardSignFor(false)) && HardSignFor(shift) in Alternates(k, isRu, shift))
    ensures shift && isRu && IsIe(k.labelText) && LongPressOptions(k.longPress) == [] ==>
      AltHint(k, isRu).value !in Alternates(k, isRu, shift)
  {
    var listed := LongPressOptions(k.longPress);
    AugmentRules(k.labelText, isRu, shift, listed);
    FirstPieceListed(k.longPress);
    if shift && isRu && IsIe(k.labelText) && listed == [] {
      assert FirstPiece(k.longPress) == [];
      assert Alternates(k, isRu, shift) == [YoFor(true)];
    }
  }

  /** The whole rule of `computeAltHintForDisplay`: a non-blank first piece is the hint on either layout, ahead of
      the Russian fallback; without one, е/Е hints ё and ь/Ь hints ъ on the Russian layout, in lower case, and every
      other key gets no hint. */
  lemma AltHintRule(k: KeySpec, isRu: bool)
    ensures FirstPiece(k.longPress) != [] ==> AltHint(k, isRu) == Some(FirstPiece(k.longPress))
    ensures FirstPiece(k.longPress) == [] && isRu && IsIe(k.labelText) ==> AltHint(k, isRu) == Some(YoFor(false))
    ensures FirstPiece(k.longPress) == [] && isRu && IsSoftSign(k.labelText) ==> AltHint(k, isRu) == Some(HardSignFor(false))
    ensures FirstPiece(k.longPress) == [] && !(isRu && (IsIe(k.labelText) || IsSoftSign(k.labelText))) ==>
      AltHint(k, isRu) == None
  {
  }

  /** On the Russian layout an е whose attribute is "x" hints x, while its long press offers ё first. */
  lemma HintAheadOfYo(lp: string)
    requires lp == "x"
    ensures AltHint(KeySpec([Ie], Some(lp)), true) == Some("x")
    ensures Alternates(KeySpec([Ie], Some(lp)), true, false)[0] == [Yo]
  {
    assert Join([lp], ',') == lp;
    SplitJoin([lp], ',');
    assert Trim(lp) == lp;
    assert FirstPiece(Some(lp)) == lp;
    OptionsRoundTrip([lp]);
  }

  /** Only the first comma piece makes a hint: an attribute ",y" draws none, though a long press offers y. */
  lemma HintSkipsLaterPieces()
    ensures AltHint(KeySpec("a", Some(",y")), false) == None
    ensures Alternates(KeySpec("a", Some(",y")), false, false) == ["y"]
  {
    assert Join(["", "y"], ',') == ",y";
    SplitJoin(["", "y"], ',');
    assert Trim("") == [];
    assert Trim("y") == "y";
  }

  // ---------- rows ----------

  /** `isRuLayout`: the first letter row (row 1) exists and holds more than ten keys. */
  function IsRuLayout(spec: KeyboardSpec): (ru: bool)
    ensures ru <==> |spec.rows| >= 2 && |spec.rows[1].keys| > 10
  {
    if |spec.rows| < 2 then false else |spec.rows[1].keys| > 10
  }

  /** The columns a letter row is padded to: eleven in each row of the Russian layout, otherwise ten for the
      first letter row and nine for the others. */
  function TargetColumns(isRu: bool, idx: nat): (c: int)
    ensures isRu ==> c == 11
    ensures !isRu ==> c == if idx == 0 then 10 else 9
  {
    if idx == 0 then (if isRu then 11 else 10)
    else if idx == 1 then (if isRu then 11 else 9)
    else (if isRu then 11 else 9)
  }

  /** Kotlin's `x / 2`, which rounds toward zero. */
  function HalfTowardZero(x: int): (h: int)
    ensures x - 1 <= 2 * h <= x + 1
    ensures x >= 0 ==> 0 <= 2 * h <= x
    ensures x <= 0 ==> x <= 2 * h <= 0
  {
    if x >= 0 then x / 2 else -((-x) / 2)
  }

  /** `padL = max(0, extra / 2)` and `padR = max(0, extra - padL)`: the free columns split evenly, the odd one
      to the right, and none when the keys do not fit. */
  function Padding(extra: int): (p: (nat, nat))
    ensures extra >= 0 ==> p.0 + p.1 == extra && 0 <= p.1 - p.0 <= 1
    ensures extra <= 0 ==> p.0 == 0 && p.1 == 0
  {
    var padL := Max(0, HalfTowardZero(extra));
    var padR := Max(0, extra - padL);
    (padL, padR)
  }

  datatype SpecialKey = Shift | Lang | Space | Delete | Enter

  /** One cell of a row: a letter key (made with the layout's Russian flag), a blank spacer or a special key. */
  datatype Cell = Letter(key: KeySpec, ru: bool) | Spacer | Special(which: SpecialKey)

  function Spacers(n: nat): (cs: seq<Cell>)
    ensures |cs| == n
  {
    if n == 0 then [] else [Spacer] + Spacers(n - 1)
  }

  function Letters(keys: seq<KeySpec>, isRu: bool): (cs: seq<Cell>)
    ensures |cs| == |keys|
  {
    if keys == [] then [] else [Letter(keys[0], isRu)] + Letters(keys[1..], isRu)
  }

  /** The keys of the letter cells of a row, in order. */
  function KeysOf(cells: seq<Cell>): seq<KeySpec>
    decreases |cells|
  {
    if cells == [] then []
    else (if cells[0].Letter? then [cells[0].key] else []) + KeysOf(cells[1..])
  }

  lemma {:induction false} KeysOfAppend(a: seq<Cell>, b: seq<Cell>)
    ensures KeysOf(a + b) == KeysOf(a) + KeysOf(b)
    decreases |a|
  {
    if a == [] {
      assert a + b == b;
    } else {
      var h := if a[0].Letter? then [a[0].key] else [];
      assert (a + b)[0] == a[0];
      assert (a + b)[1..] == a[1..] + b;
      assert KeysOf(a + b) == h + KeysOf(a[1..] + b);
      KeysOfAppend(a[1..], b);
      assert h + (KeysOf(a[1..]) + KeysOf(b)) == (h + KeysOf(a[1..])) + KeysOf(b);
    }
  }

  lemma {:induction false} KeysOfSpacers(n: nat)
    ensures KeysOf(Spacers(n)) == []
    decreases n
  {
    if n > 0 {
      assert Spacers(n)[1..] == Spacers(n - 1);
      KeysOfSpacers(n - 1);
    }
  }

  lemma {:induction false} KeysOfLetters(keys: seq<KeySpec>, isRu: bool)
    ensures KeysOf(Letters(keys, isRu)) == keys
    decreases |keys|
  {
    if keys != [] {
      assert Letters(keys, isRu)[1..] == Letters(keys[1..], isRu);
      KeysOfLetters(keys[1..], isRu);
    }
  }

  /** A letter row of `buildInto`: the keys centred between spacers; the third letter row (index 2) also gets the
      shift and delete columns at its ends, which take two of its target columns. */
  function LetterRow(idx: nat, keys: seq<KeySpec>, isRu: bool, target: int): (cells: seq<Cell>)
    ensures |cells| >= |keys|
    ensures idx == 2 ==> |cells| >= 2 && cells[0] == Special(Shift) && cells[|cells| - 1] == Special(Delete)
  {
    if idx == 2 then
      var p := Padding(target - |keys| - 2);
      [Special(Shift)] + Spacers(p.0) + Letters(keys, isRu) + Spacers(p.1) + [Special(Delete)]
    else
      var p := Padding(target - |keys|);
      Spacers(p.0) + Letters(keys, isRu) + Spacers(p.1)
  }

  /** A letter row is exactly as wide as its target when its keys fit and otherwise just holds them. */
  lemma RowWidth(idx: nat, keys: seq<KeySpec>, isRu: bool, target: int)
    ensures |LetterRow(idx, keys, isRu, target)| == Max(target, |keys| + (if idx == 2 then 2 else 0))
  {
  }

  /** The letter cells of a letter row are the row's keys in order. */
  lemma RowKeys(idx: nat, keys: seq<KeySpec>, isRu: bool, target: int)
    ensures KeysOf(LetterRow(idx, keys, isRu, target)) == keys
  {
    var extra := if idx == 2 then target - |keys| - 2 else target - |keys|;
    var p := Padding(extra);
    KeysOfSpacers(p.0);
    KeysOfSpacers(p.1);
    KeysOfLetters(keys, isRu);
    if idx == 2 {
      var side := [Special(Shift)] + Spacers(p.0);
      KeysOfAppend([Special(Shift)], Spacers(p.0));
      KeysOfAppend(side, Letters(keys, isRu));
      KeysOfAppend(side + Letters(keys, isRu), Spacers(p.1));
      KeysOfAppend(side + Letters(keys, isRu) + Spacers(p.1), [Special(Delete)]);
    } else {
      KeysOfAppend(Spacers(p.0), Letters(keys, isRu));
      KeysOfAppend(Spacers(p.0) + Letters(keys, isRu), Spacers(p.1));
    }
  }

  const BottomRow: seq<Cell> := [Special(Lang), Special(Space), Special(Enter)]

  /** The letter rows of the keyboard (rows 1 onwards of the layout), each centred in its target columns. */
  function LetterRows(spec: KeyboardSpec): (rows: seq<seq<Cell>>)
    requires |spec.rows| > 0
    ensures |rows| == |spec.rows| - 1
  {
    var isRu := IsRuLayout(spec);
    seq(|spec.rows| - 1, i requires 0 <= i < |spec.rows| - 1 =>
      LetterRow(i, spec.rows[i + 1].keys, isRu, TargetColumns(isRu, i)))
  }

  lemma LetterRowsAt(spec: KeyboardSpec, i: nat)
    requires 0 < i < |spec.rows|
    ensures LetterRows(spec)[i - 1] ==
      LetterRow(i - 1, spec.rows[i].keys, IsRuLayout(spec), TargetColumns(IsRuLayout(spec), i - 1))
  {
    var isRu := IsRuLayout(spec);
    var target := TargetColumns(isRu, i - 1);
    var rows := LetterRows(spec);
    assert rows[i - 1] == LetterRow(i - 1, spec.rows[(i - 1) + 1].keys, isRu, target);
  }

  /** The rows `buildInto` lays out: the number row (made without the Russian flag), each letter row centred in
      its target columns, then the language, space and enter keys. */
  function RowsOf(spec: KeyboardSpec): (rows: seq<seq<Cell>>)
    requires |spec.rows| > 0
    ensures |rows| == |spec.rows| + 1
  {
    [Letters(spec.rows[0].keys, false)] + LetterRows(spec) + [BottomRow]
  }

  /** Row `i` of the keyboard: the number row first, then the letter rows, then the bottom row. */
  lemma RowsOfAt(spec: KeyboardSpec, i: nat)
    requires |spec.rows| > 0 && i <= |spec.rows|
    ensures i == 0 ==> RowsOf(spec)[i] == Letters(spec.rows[0].keys, false)
    ensures 0 < i < |spec.rows| ==>
      RowsOf(spec)[i] == LetterRow(i - 1, spec.rows[i].keys, IsRuLayout(spec), TargetColumns(IsRuLayout(spec), i - 1))
    ensures i == |spec.rows| ==> RowsOf(spec)[i] == BottomRow
  {
    if 0 < i < |spec.rows| {
      assert RowsOf(spec)[i] == LetterRows(spec)[i - 1];
      LetterRowsAt(spec, i);
    }
  }

  /** Every row of the keyboard holds its keys in order, and each letter row is as wide as its target columns
      when its keys fit (the third with two extra columns for shift and delete). */
  lemma RowsOfShape(spec: KeyboardSpec)
    requires |spec.rows| > 0
    ensures forall i :: 0 <= i < |spec.rows| ==> KeysOf(RowsOf(spec)[i]) == spec.rows[i].keys
    ensures forall i :: 1 <= i < |spec.rows| ==>
      |RowsOf(spec)[i]| == Max(TargetColumns(IsRuLayout(spec), i - 1), |spec.rows[i].keys| + (if i == 3 then 2 else 0))
    ensures RowsOf(spec)[|spec.rows|] == BottomRow
  {
    var isRu := IsRuLayout(spec);
    RowsOfAt(spec, 0);
    RowsOfAt(spec, |spec.rows|);
    KeysOfLetters(spec.rows[0].keys, false);
    forall i | 1 <= i < |spec.rows|
      ensures KeysOf(RowsOf(spec)[i]) == spec.rows[i].keys
      ensures |RowsOf(spec)[i]| == Max(TargetColumns(isRu, i - 1), |spec.rows[i].keys| + (if i == 3 then 2 else 0))
    {
      RowsOfAt(spec, i);
      RowWidth(i - 1, spec.rows[i].keys, isRu, TargetColumns(isRu, i - 1));
      RowKeys(i - 1, spec.rows[i].keys, isRu, TargetColumns(isRu, i - 1));
    }
  }

  /** `buildInto`, reduced to the cells it lays out; `rows.first()` fails on a keyboard without rows. */
  method BuildInto(spec: KeyboardSpec) returns (rows: seq<seq<Cell>>)
    requires |spec.rows| > 0
    ensures rows == RowsOf(spec)
  {
    var isRu := IsRuLayout(spec);
    ghost var letterRows := LetterRows(spec);
    rows := [Letters(spec.rows[0].keys, false)];
    var n := 1;
    while n < |spec.rows|
      invariant 1 <= n <= |spec.rows|
      invariant rows == [Letters(spec.rows[0].keys, false)] + letterRows[..n - 1]
    {
      LetterRowsAt(spec, n);
      rows := rows + [LetterRow(n - 1, spec.rows[n].keys, isRu, TargetColumns(isRu, n - 1))];
      n := n + 1;
    }
    assert letterRows[..n - 1] == letterRows;
    rows := rows + [BottomRow];
  }

  // ---------- touch handling ----------

  datatype Touch = ActionDown | ActionMove(rawX: int, g: RowGeometry) | ActionUp | ActionCancel

  /** What a release hands to `onKey`: the popup's selected option after a long press that found options (nothing
      if the popup has none selected), otherwise the shift-adjusted label. */
  function Emission(longTriggered: bool, options: seq<string>, selected: Option<string>, text: string, shift: bool): (out: seq<string>)
    ensures |out| <= 1
    ensures out == [] <==> longTriggered && |options| > 0 && selected.None?
    ensures longTriggered && |options| > 0 && out != [] ==> selected == Some(out[0])
    ensures !(longTriggered && |options| > 0) ==> out == [OutputFor(text, shift)]
  {
    if longTriggered && |options| > 0 then (if selected.Some? then [selected.value] else [])
    else [OutputFor(text, shift)]
  }

  /** The touch listener of one key cell (`makeKeyCell`) and the long-press runnable it posts. The popup is
      the keyboard's one `KeyPopup`, shared by all cells. */
  class KeyCell {
    const key: KeySpec
    const isRu: bool
    const popup: KeyPopup
    var longTriggered: bool
    var options: seq<string>
    /** Posts of the long-press runnable neither run nor removed yet. */
    var pendingLongPress: nat
    /** The texts passed to `onKey`, in order. */
    var sent: seq<string>
    /** A press is in progress: down seen, up or cancel not yet. */
    ghost var pressed: bool

    /** A long-press timer only runs during a press, and during a press that has escalated the popup shows
        exactly this key's options. */
    ghost predicate Valid()
      reads this, popup
    {
      && popup.Valid()
      && (pendingLongPress > 0 ==> pressed)
      && (pressed && longTriggered && |options| > 0 ==> popup.multiShown && popup.Options() == options)
    }

    constructor (key: KeySpec, isRu: bool, popup: KeyPopup)
      requires popup.Valid()
      ensures Valid()
      ensures this.key == key && this.isRu == isRu && this.popup == popup
      ensures !longTriggered && options == [] && pendingLongPress == 0 && sent == [] && !pressed
    {
      this.key := key;
      this.isRu := isRu;
      this.popup := popup;
      longTriggered := false;
      options := [];
      pendingLongPress := 0;
      sent := [];
      pressed := false;
    }

    /** ACTION_DOWN: not escalated, the shift-adjusted label previewed, one more long-press timer posted. */
    method Down(shift: bool)
      modifies this, popup
      ensures Valid()
      ensures pressed && !longTriggered && options == old(options) && sent == old(sent)
      ensures pendingLongPress == old(pendingLongPress) + 1
      ensures popup.singleText == Some(OutputFor(key.labelText, shift)) && !popup.multiShown
      ensures popup.optionViews == [] && popup.selectedIndex == old(popup.selectedIndex)
    {
      longTriggered := false;
      popup.ShowSingle(OutputFor(key.labelText, shift));
      pendingLongPress := pendingLongPress + 1;
      pressed := true;
    }

    /** The long-press runnable: marks the press escalated and collects the options, then shows them with the
        first selected, or keeps the single preview when there are none. */
    method RunLongPress(shift: bool)
      modifies this, popup
      ensures old(Valid()) ==> Valid()
      ensures longTriggered && options == Alternates(key, isRu, shift)
      ensures pendingLongPress == old(pendingLongPress) && sent == old(sent) && pressed == old(pressed)
      ensures |options| > 0 ==> popup.multiShown && popup.Options() == options && popup.selectedIndex == 0
      ensures |options| == 0 ==> unchanged(popup)
    {
      ghost var wasValid := Valid();
      var opts := BuildOptions(key, isRu, shift);
      longTriggered, options := true, opts;
      if |opts| > 0 {
        popup.ShowMulti(opts, 0);
        assert popup.Valid() && popup.multiShown && popup.Options() == options;
      } else {
        assert wasValid ==> popup.Valid();
      }
    }

    /** The long-press timer fires: one posted runnable is consumed and run; with none posted nothing happens. */
    method LongPressFires(shift: bool)
      modifies this, popup
      ensures old(Valid()) ==> Valid()
      ensures old(pendingLongPress) == 0 ==> unchanged(this) && unchanged(popup)
      ensures old(pendingLongPress) > 0 ==>
        && pendingLongPress == old(pendingLongPress) - 1 && sent == old(sent) && pressed == old(pressed)
        && longTriggered && options == Alternates(key, isRu, shift)
        && (|options| > 0 ==> popup.multiShown && popup.Options() == options && popup.selectedIndex == 0)
        && (|options| == 0 ==> unchanged(popup))
    {
      if pendingLongPress == 0 {
        return;
      }
      pendingLongPress := pendingLongPress - 1;
      RunLongPress(shift);
    }

    /** ACTION_MOVE: once the press has escalated with options, the option nearest the touch is selected;
        otherwise nothing changes. */
    method Move(rawX: int, g: RowGeometry)
      requires popup.Valid()
      requires popup.multiShown ==> |g.lefts| == |popup.optionViews| && |g.widths| == |popup.optionViews|
      modifies popup
      ensures old(Valid()) ==> Valid()
      ensures popup.Valid() && popup.Options() == old(popup.Options())
      ensures popup.singleText == old(popup.singleText) && popup.multiShown == old(popup.multiShown)
      ensures !(longTriggered && |options| > 0) || !popup.multiShown ==> popup.selectedIndex == old(popup.selectedIndex)
      ensures longTriggered && |options| > 0 && popup.multiShown ==> IsNearest(g, rawX, |popup.optionViews|, popup.selectedIndex)
    {
      if longTriggered && |options| > 0 {
        var _ := popup.SelectByTouchX(rawX, g);
      }
    }

    /** ACTION_UP and ACTION_CANCEL alike: every pending long-press timer removed, the release's text sent, both
        previews hidden. During a valid press exactly one text is sent. */
    method Release(shift: bool)
      modifies this, popup
      ensures Valid() && !pressed && pendingLongPress == 0
      ensures longTriggered == old(longTriggered) && options == old(options)
      ensures sent == old(sent) + Emission(old(longTriggered), old(options), old(popup.GetSelected()), key.labelText, shift)
      ensures old(Valid()) && old(pressed) ==> |sent| == |old(sent)| + 1
      ensures old(Valid()) && old(pressed) && longTriggered && |options| > 0 ==> sent[|sent| - 1] in options
      ensures popup.singleText == None && !popup.multiShown && popup.optionViews == []
    {
      pendingLongPress := 0;
      if longTriggered && |options| > 0 {
        var selected := popup.GetSelected();
        if selected.Some? {
          sent := sent + [selected.value];
        }
      } else {
        sent := sent + [OutputFor(key.labelText, shift)];
      }
      popup.HideAll();
      pressed := false;
    }

    /** The listener's dispatch on the action. */
    method OnTouch(t: Touch, shift: bool)
      requires t.ActionMove? ==> popup.Valid()
      requires t.ActionMove? && popup.multiShown ==> |t.g.lefts| == |popup.optionViews| && |t.g.widths| == |popup.optionViews|
      modifies this, popup
      ensures old(Valid()) ==> Valid()
      ensures t.ActionUp? || t.ActionCancel? ==>
        sent == old(sent) + Emission(old(longTriggered), old(options), old(popup.GetSelected()), key.labelText, shift)
      ensures !t.ActionUp? && !t.ActionCancel? ==> sent == old(sent)
      ensures t.ActionDown? ==>
        && pressed && !longTriggered && options == old(options) && pendingLongPress == old(pendingLongPress) + 1
        && popup.singleText == Some(OutputFor(key.labelText, shift)) && !popup.multiShown && popup.optionViews == []
        && popup.selectedIndex == old(popup.selectedIndex)
      ensures t.ActionMove? ==>
        && pressed == old(pressed) && longTriggered == old(longTriggered) && options == old(options)
        && pendingLongPress == old(pendingLongPress)
        && popup.Options() == old(popup.Options())
        && popup.singleText == old(popup.singleText) && popup.multiShown == old(popup.multiShown)
        && (!(longTriggered && |options| > 0) || !popup.multiShown ==> popup.selectedIndex == old(popup.selectedIndex))
        && (longTriggered && |options| > 0 && popup.multiShown ==> IsNearest(t.g, t.rawX, |popup.optionViews|, popup.selectedIndex))
      ensures t.ActionUp? || t.ActionCancel? ==>
        && !pressed && pendingLongPress == 0 && longTriggered == old(longTriggered) && options == old(options)
        && popup.singleText == None && !popup.multiShown && popup.optionViews == []
    {
      match t
      case ActionDown => Down(shift);
      case ActionMove(rawX, g) => Move(rawX, g);
      case ActionUp => Release(shift);
      case ActionCancel => Release(shift);
    }
  }

  /** A press released before its long-press timer fires commits the shift-adjusted label, once. */
  method ShortPress(k: KeySpec, isRu: bool, shift: bool) returns (sent: seq<string>)
    ensures sent == [OutputFor(k.labelText, shift)]
  {
    var popup := new KeyPopup();
    var cell := new KeyCell(k, isRu, popup);
    cell.Down(shift);
    cell.Release(shift);
    sent := cell.sent;
  }

  /** A press held until its timer fires and then released, by up or by cancel, commits the first alternate,
      or the shift-adjusted label when the key has none. */
  method HeldPress(k: KeySpec, isRu: bool, shift: bool, cancel: bool) returns (sent: seq<string>)
    ensures sent == if |Alternates(k, isRu, shift)| > 0 then [Alternates(k, isRu, shift)[0]] else [OutputFor(k.labelText, shift)]
  {
    var popup := new KeyPopup();
    var cell := new KeyCell(k, isRu, popup);
    cell.Down(shift);
    cell.LongPressFires(shift);
    cell.OnTouch(if cancel then ActionCancel else ActionUp, shift);
    sent := cell.sent;
  }

  /** A press held until its timer fires, slid across the options and released commits the option nearest the
      last touch; with no alternates the slide does nothing and the label is committed. */
  method HeldAndSlid(k: KeySpec, isRu: bool, shift: bool, rawX: int, g: RowGeometry) returns (sent: seq<string>, index: int)
    requires |g.lefts| == |Alternates(k, isRu, shift)| && |g.widths| == |Alternates(k, isRu, shift)|
    ensures |Alternates(k, isRu, shift)| > 0 ==>
      IsNearest(g, rawX, |Alternates(k, isRu, shift)|, index) && sent == [Alternates(k, isRu, shift)[index]]
    ensures |Alternates(k, isRu, shift)| == 0 ==> sent == [OutputFor(k.labelText, shift)]
  {
    var popup := new KeyPopup();
    var cell := new KeyCell(k, isRu, popup);
    cell.Down(shift);
    cell.LongPressFires(shift);
    cell.Move(rawX, g);
    index := popup.selectedIndex;
    cell.Release(shift);
    sent := cell.sent;
  }
}
