/**
 Scalability modes such as L3T2_KEY, as the two implementations read and write them.
 */
module ScalabilityModes {
  import opened Wrappers

  datatype Layers = Layers(spatial: nat, temporal: nat, ksvc: bool)

  // ----- The pattern ^[LS]([1-9][0-9]?)T([1-9][0-9]?)(_KEY)?

  predicate IsDigit(c: char) { '0' <= c <= '9' }

  function DigitValue(c: char): nat
    requires IsDigit(c)
  {
    c as int - '0' as int
  }

  /** `[1-9][0-9]?` at position `i`: its value and where it ends. */
  function NumberAt(s: string, i: nat): Option<(nat, nat)> {
    if i >= |s| || !IsDigit(s[i]) || s[i] == '0' then None
    else if i + 1 < |s| && IsDigit(s[i + 1]) then Some((10 * DigitValue(s[i]) + DigitValue(s[i + 1]), i + 2))
    else Some((DigitValue(s[i]), i + 1))
  }

  predicate KeyAt(s: string, i: nat) {
    i + 4 <= |s| && s[i] == '_' && s[i + 1] == 'K' && s[i + 2] == 'E' && s[i + 3] == 'Y'
  }

  /** The pattern's captures, if it matches. */
  function Captures(s: string): Option<Layers> {
    if s == "" || (s[0] != 'L' && s[0] != 'S') then None
    else
      var spatial :- NumberAt(s, 1);
      if spatial.1 >= |s| || s[spatial.1] != 'T' then None
      else
        var temporal :- NumberAt(s, spatial.1 + 1);
        Some(Layers(spatial.0, temporal.0, KeyAt(s, temporal.1)))
  }

  /** The Node parser: one layer of each when the pattern does not match. */
  function ParseNode(s: Option<string>): Layers {
    var captures := Captures(if s.Some? then s.value else "");
    if captures.Some? then captures.value else Layers(1, 1, false)
  }

  // ----- Printing

  function DigitChar(d: nat): (c: char)
    requires d < 10
    ensures IsDigit(c) && DigitValue(c) == d
  {
    (d + '0' as int) as char
  }

  function Decimal(n: nat): (s: string)
    ensures s != [] && forall i :: 0 <= i < |s| ==> IsDigit(s[i])
    ensures n > 0 ==> s[0] != '0'
    ensures n >= 100 ==> |s| >= 3
  {
    if n < 10 then [DigitChar(n)] else Decimal(n / 10) + [DigitChar(n % 10)]
  }

  /** The mode of a consumer of `s` simulcast encodings with `t` temporal layers each. */
  function SimulcastMode(s: nat, t: nat): string {
    "L" + Decimal(s) + "T" + Decimal(t)
  }

  lemma DecimalUpTo99(n: nat)
    requires n <= 99
    ensures Decimal(n) == if n < 10 then [DigitChar(n)] else [DigitChar(n / 10), DigitChar(n % 10)]
  {
  }

  lemma NumberInContext(before: string, n: nat, after: string)
    requires 1 <= n <= 99 && (after == "" || !IsDigit(after[0]))
    ensures NumberAt(before + Decimal(n) + after, |before|) == Some((n, |before| + |Decimal(n)|))
  {
    DecimalUpTo99(n);
    var s := before + Decimal(n) + after;
    assert s[|before|] == Decimal(n)[0];
    if n >= 10 {
      assert s[|before| + 1] == Decimal(n)[1];
    }
  }

  /** Parsing what was printed gives the layers back, up to 99 of each. */
  lemma PrintParse(s: nat, t: nat)
    requires 1 <= s <= 99 && 1 <= t <= 99
    ensures Captures(SimulcastMode(s, t)) == Some(Layers(s, t, false))
  {
    var mode := SimulcastMode(s, t);
    assert mode == "L" + Decimal(s) + ("T" + Decimal(t));
    NumberInContext("L", s, "T" + Decimal(t));
    var before := "L" + Decimal(s) + "T";
    assert mode == before + Decimal(t) + "";
    NumberInContext(before, t, "");
  }

  /** From 100 spatial layers on, what is printed no longer parses. */
  lemma TooManyLayers(s: nat, t: nat)
    requires s >= 100
    ensures Captures(SimulcastMode(s, t)) == None
  {
    var mode := SimulcastMode(s, t);
    assert forall i :: 0 <= i < |Decimal(s)| ==> mode[i + 1] == Decimal(s)[i];
    assert mode[1] == Decimal(s)[0] && mode[2] == Decimal(s)[1] && mode[3] == Decimal(s)[2];
  }

  /** The spatial layers of a simulcast mode survive printing and parsing iff there are at most 99. */
  lemma SimulcastLayers(s: nat, t: nat)
    requires 1 <= s && 1 <= t <= 99
    ensures ParseNode(Some(SimulcastMode(s, t))) == (if s <= 99 then Layers(s, t, false) else Layers(1, 1, false))
  {
    if s <= 99 { PrintParse(s, t); } else { TooManyLayers(s, t); }
  }

  /** What the Node parser returns always prints to something with the same temporal layers. */
  lemma ParsedLayersAreSmall(s: Option<string>)
    ensures var l := ParseNode(s); 1 <= l.spatial <= 99 && 1 <= l.temporal <= 99
  {
  }

  // ----- The Rust enumeration

  /** One named variant: its name and what the layer and K-SVC accessors return for it. */
  datatype Row = Row(name: string, spatial: nat, temporal: nat, ksvc: bool)

  const L1_L2T1_MODES: seq<Row> := [
    Row("L1T2", 1, 2, false),
    Row("L1T2h", 1, 2, false),
    Row("L1T3", 1, 3, false),
    Row("L1T3h", 1, 3, false),
    Row("L2T1", 2, 1, false),
    Row("L2T1h", 2, 1, false),
    Row("L2T1_KEY", 2, 1, false)]

  const L2T2_MODES: seq<Row> := [
    Row("L2T2", 2, 2, false),
    Row("L2T2h", 2, 2, false),
    Row("L2T2_KEY", 2, 2, true),
    Row("L2T2_KEY_SHIFT", 2, 2, true)]

  const L2T3_MODES: seq<Row> := [
    Row("L2T3", 2, 3, false),
    Row("L2T3h", 2, 3, false),
    Row("L2T3_KEY", 2, 3, true),
    Row("L2T3_KEY_SHIFT", 2, 3, true)]

  const L3T1_L3T2_MODES: seq<Row> := [
    Row("L3T1", 3, 1, false),
    Row("L3T1h", 3, 1, false),
    Row("L3T1_KEY", 3, 1, true),
    Row("L3T2", 3, 2, false),
    Row("L3T2h", 3, 2, false),
    Row("L3T2_KEY", 3, 2, true),
    Row("L3T2_KEY_SHIFT", 3, 2, true)]

  const L3T3_MODES: seq<Row> := [
    Row("L3T3", 3, 3, false),
    Row("L3T3h", 3, 3, false),
    Row("L3T3_KEY", 3, 3, true),
    Row("L3T3_KEY_SHIFT", 3, 3, true)]

  const S2_MODES: seq<Row> := [
    Row("S2T1", 2, 1, false),
    Row("S2T1h", 2, 1, false),
    Row("S2T2", 2, 2, false),
    Row("S2T2h", 2, 2, false),
    Row("S2T3", 2, 3, false),
    Row("S2T3h", 2, 3, false)]

  const S3_MODES: seq<Row> := [
    Row("S3T1", 3, 1, false),
    Row("S3T1h", 3, 1, false),
    Row("S3T2", 3, 2, false),
    Row("S3T2h", 3, 2, false),
    Row("S3T3", 3, 3, false),
    Row("S3T3h", 3, 3, false)]

  const STANDARD_MODES: seq<Row> :=
    L1_L2T1_MODES + L2T2_MODES + L2T3_MODES + L3T1_L3T2_MODES + L3T3_MODES + S2_MODES + S3_MODES

  datatype ScalabilityMode =
    | Unscaled
    | Standard(row: Row)
    | Custom(name: string, layers: Layers)

  function RowOf(rows: seq<Row>, s: string): (r: Option<Row>)
    ensures r.Some? ==> r.value in rows && r.value.name == s
    ensures r.None? ==> forall row :: row in rows ==> row.name != s
  {
    if rows == [] then None
    else if rows[0].name == s then Some(rows[0])
    else RowOf(rows[1..], s)
  }

  function FromStr(s: string): Option<ScalabilityMode> {
    if s == "S1T1" then Some(Unscaled)
    else
      var row := RowOf(STANDARD_MODES, s);
      if row.Some? then Some(Standard(row.value))
      else
        var layers :- Captures(s);
        Some(Custom(s, layers))
  }

  function AsStr(m: ScalabilityMode): string {
    match m
    case Unscaled => "S1T1"
    case Standard(row) => row.name
    case Custom(name, _) => name
  }

  function LayersOf(m: ScalabilityMode): Layers {
    match m
    case Unscaled => Layers(1, 1, false)
    case Standard(row) => Layers(row.spatial, row.temporal, row.ksvc)
    case Custom(_, layers) => layers
  }

  /** The name says what the row says, except that L2T1_KEY is not counted as K-SVC. */
  predicate RowAgrees(row: Row) {
    && Captures(row.name) == Some(Layers(row.spatial, row.temporal, row.ksvc || row.name == "L2T1_KEY"))
    && (row.name == "L2T1_KEY" ==> !row.ksvc)
  }

  /** A name of the form [LS] digit T digit, with at most a suffix that is not a digit. */
  predicate IsShort(s: string) {
    && |s| >= 4
    && (s[0] == 'L' || s[0] == 'S') && '1' <= s[1] <= '9' && s[2] == 'T' && '1' <= s[3] <= '9'
    && (|s| == 4 || !IsDigit(s[4]))
  }

  lemma ShortCaptures(s: string)
    requires IsShort(s)
    ensures Captures(s) == Some(Layers(DigitValue(s[1]), DigitValue(s[3]), KeyAt(s, 4)))
  {
  }

  predicate RowIsPlain(row: Row) {
    && IsShort(row.name)
    && row.spatial == DigitValue(row.name[1])
    && row.temporal == DigitValue(row.name[3])
    && KeyAt(row.name, 4) == (row.ksvc || row.name == "L2T1_KEY")
    && (row.name == "L2T1_KEY" ==> !row.ksvc)
  }

  predicate RowsArePlain(rows: seq<Row>) {
    forall i :: 0 <= i < |rows| ==> RowIsPlain(rows[i])
  }

  ghost predicate RowsAgree(rows: seq<Row>) {
    forall i :: 0 <= i < |rows| ==> RowAgrees(rows[i])
  }

  lemma L1L2t1ModesArePlain()
    ensures RowsArePlain(L1_L2T1_MODES)
  {
  }

  lemma L2t2ModesArePlain()
    ensures RowsArePlain(L2T2_MODES)
  {
  }

  lemma L2t3ModesArePlain()
    ensures RowsArePlain(L2T3_MODES)
  {
  }

  lemma L3t1L3t2ModesArePlain()
    ensures RowsArePlain(L3T1_L3T2_MODES)
  {
  }

  lemma L3t3ModesArePlain()
    ensures RowsArePlain(L3T3_MODES)
  {
  }

  lemma S2ModesArePlain()
    ensures RowsArePlain(S2_MODES)
  {
  }

  lemma S3ModesArePlain()
    ensures RowsArePlain(S3_MODES)
  {
  }

  lemma StandardModesAgree()
    ensures RowsAgree(STANDARD_MODES)
  {
    L1L2t1ModesArePlain();
    L2t2ModesArePlain();
    L2t3ModesArePlain();
    L3t1L3t2ModesArePlain();
    L3t3ModesArePlain();
    S2ModesArePlain();
    S3ModesArePlain();
    hide L1_L2T1_MODES, L2T2_MODES, L2T3_MODES, L3T1_L3T2_MODES, L3T3_MODES, S2_MODES, S3_MODES, RowIsPlain;
    assert RowsArePlain(STANDARD_MODES);
    forall i | 0 <= i < |STANDARD_MODES|
      ensures RowAgrees(STANDARD_MODES[i])
    {
      PlainRowAgrees(STANDARD_MODES[i]);
    }
  }

  lemma PlainRowAgrees(row: Row)
    requires RowIsPlain(row)
    ensures RowAgrees(row)
  {
    ShortCaptures(row.name);
  }

  lemma UnscaledLayers()
    ensures Captures("S1T1") == Some(Layers(1, 1, false))
  {
  }

  /**
   Every string that Rust accepts prints back unchanged and has the layers that Node
   reads in it; the two disagree on K-SVC for L2T1_KEY and for nothing else.
   */
  lemma RustAgreesWithNode(s: string)
    requires FromStr(s).Some?
    ensures AsStr(FromStr(s).value) == s
    ensures LayersOf(FromStr(s).value).spatial == ParseNode(Some(s)).spatial
    ensures LayersOf(FromStr(s).value).temporal == ParseNode(Some(s)).temporal
    ensures LayersOf(FromStr(s).value).ksvc == ParseNode(Some(s)).ksvc <==> s != "L2T1_KEY"
  {
    StandardModesAgree();
    UnscaledLayers();
    KeyModeIsStandard();
    hide STANDARD_MODES, Captures;
  }

  lemma KeyModeIsStandard()
    ensures RowOf(STANDARD_MODES, "L2T1_KEY").Some?
  {
    assert L1_L2T1_MODES[6].name == "L2T1_KEY";
    assert L1_L2T1_MODES[6] in STANDARD_MODES;
  }

  /** Rust accepts exactly the strings in which Node finds layers. */
  lemma RustAcceptsTheSame(s: string)
    ensures FromStr(s).Some? <==> Captures(s).Some?
  {
    StandardModesAgree();
    UnscaledLayers();
    hide STANDARD_MODES, Captures;
  }

  /**
   The mode that Rust builds for simulcast parses, so that unwrapping it cannot fail, iff there
   are at most 99 encodings.
   */
  lemma RustSimulcastUnwrap(s: nat, t: nat)
    requires 1 <= s && 1 <= t <= 99
    ensures FromStr(SimulcastMode(s, t)).Some? <==> s <= 99
  {
    RustAcceptsTheSame(SimulcastMode(s, t));
    if s <= 99 { PrintParse(s, t); } else { TooManyLayers(s, t); }
  }
}
