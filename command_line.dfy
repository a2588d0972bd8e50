/**
 * `parse_args` of the mono program: an ordered chain of tests on the first
 * command-line argument that chooses SVO file input, a transform table,
 * network stream input or a camera resolution.
 */
module CommandLine {
  import opened Wrappers
  import opened Text
  import ArucoTable

  datatype Resolution = HD2K | HD1200 | HD1080 | HD720 | SVGA | VGA

  /** Where the camera images come from; `port` is `None` when the SDK's default port is used. */
  datatype InputType = CameraInput | SvoInput(path: string) | StreamInput(ip: string, port: Option<int>)

  /** The part of `sl::InitParameters` that `parse_args` writes. */
  datatype InitParameters = InitParameters(input: InputType, svoRealTimeMode: bool, cameraResolution: Resolution)

  // ---------------------------------------------------------------------
  // sscanf over the two address formats

  /** One directive of a scanf format: `%u`, `%d` or an ordinary character. */
  datatype Directive = Unsigned | Signed | Literal(c: char)

  /** `"%u.%u.%u.%u:%d"` */
  const IpPortFormat: seq<Directive> :=
    [Unsigned, Literal('.'), Unsigned, Literal('.'), Unsigned, Literal('.'), Unsigned, Literal(':'), Signed]

  /** `"%u.%u.%u.%u"` */
  const IpFormat: seq<Directive> :=
    [Unsigned, Literal('.'), Unsigned, Literal('.'), Unsigned, Literal('.'), Unsigned]

  /** All five targets are `unsigned int` variables, so a stored value is reduced modulo 2^32. */
  const UIntRange: int := 0x1_0000_0000

  predicate IsDigit(c: char) {
    '0' <= c <= '9'
  }

  predicate AllDigits(s: string) {
    forall i :: 0 <= i < |s| ==> IsDigit(s[i])
  }

  /** The length of the run of decimal digits that starts `s`. */
  function DigitRun(s: string): (n: nat)
    ensures n <= |s| && AllDigits(s[..n])
    ensures n < |s| ==> !IsDigit(s[n])
  {
    if s == [] || !IsDigit(s[0]) then 0
    else
      var n := 1 + DigitRun(s[1..]);
      assert forall i :: 1 <= i < n ==> s[..n][i] == s[1..][..n - 1][i - 1];
      n
  }

  /** The number a string of decimal digits denotes. */
  function DigitsValue(s: string): nat
    requires AllDigits(s)
  {
    if s == [] then 0 else 10 * DigitsValue(s[..|s| - 1]) + (s[|s| - 1] as int - '0' as int)
  }

  /**
   * A `%u` or `%d` conversion: skip whitespace, take an optional sign and at
   * least one digit; the signed value and the rest of the input.
   */
  function ScanInteger(s: string): Option<(int, string)>
  {
    var t := SkipSpace(s);
    var negative := t != [] && t[0] == '-';
    var body := if t != [] && (t[0] == '+' || t[0] == '-') then t[1..] else t;
    var n := DigitRun(body);
    if n == 0 then None
    else var m := DigitsValue(body[..n]) as int;
      Some((if negative then -m else m, body[n..]))
  }

  /** The number of conversions in a format: what `sscanf` returns when every directive matches. */
  function Conversions(fmt: seq<Directive>): nat
  {
    if fmt == [] then 0 else (if fmt[0].Literal? then 0 else 1) + Conversions(fmt[1..])
  }

  /**
   * The values `sscanf(s, fmt, ...)` stores, in order: scanning stops at the
   * first directive that does not match, and the count it returns is the
   * number of values stored.
   */
  function Scan(s: string, fmt: seq<Directive>): (vs: seq<int>)
    ensures |vs| <= Conversions(fmt)
    ensures forall i :: 0 <= i < |vs| ==> 0 <= vs[i] < UIntRange
  {
    if fmt == [] then []
    else match fmt[0]
      case Literal(c) =>
        if s != [] && s[0] == c then Scan(s[1..], fmt[1..]) else []
      case _ =>
        match ScanInteger(s)
        case None => []
        case Some((v, rest)) => [v % UIntRange] + Scan(rest, fmt[1..])
  }

  /**
   * Scanning with a format that extends `fmt` stores what scanning with
   * `fmt` stores, and more only if all of `fmt` matched.
   */
  lemma {:induction false} ScanPrefix(s: string, fmt: seq<Directive>, more: seq<Directive>)
    ensures var short, long := Scan(s, fmt), Scan(s, fmt + more);
      |short| <= |long| && long[..|short|] == short &&
      (|short| < Conversions(fmt) ==> long == short)
  {
    if fmt != [] {
      assert (fmt + more)[0] == fmt[0] && (fmt + more)[1..] == fmt[1..] + more;
      match fmt[0]
      case Literal(c) =>
        if s != [] && s[0] == c {
          ScanPrefix(s[1..], fmt[1..], more);
        }
      case _ =>
        match ScanInteger(s)
        case None =>
        case Some((v, rest)) =>
          ScanPrefix(rest, fmt[1..], more);
    }
  }

  /** An argument that matches the address-and-port form also matches the address-only form. */
  lemma IpPortMatchImpliesIpMatch(s: string)
    requires |Scan(s, IpPortFormat)| == 5
    ensures |Scan(s, IpFormat)| == 4
  {
    assert IpPortFormat == IpFormat + [Literal(':'), Signed];
    ScanPrefix(s, IpFormat, [Literal(':'), Signed]);
  }

  // ---------------------------------------------------------------------
  // to_string and the rendered address

  function DigitChar(d: nat): (c: char)
    requires d < 10
    ensures IsDigit(c) && c as int - '0' as int == d
  {
    ('0' as int + d) as char
  }

  /** `std::to_string` of an unsigned value. */
  function Decimal(n: nat): (s: string)
    ensures s != [] && AllDigits(s)
    ensures DigitsValue(s) == n
    ensures |s| == 1 || s[0] != '0'
  {
    if n < 10 then [DigitChar(n)]
    else
      var s := Decimal(n / 10) + [DigitChar(n % 10)];
      assert s[..|s| - 1] == Decimal(n / 10);
      s
  }

  /** The address `to_string(a) + "." + ... + to_string(d)` built for the stream input. */
  function DottedQuad(vs: seq<int>): string
    requires |vs| == 4 && forall i :: 0 <= i < 4 ==> vs[i] >= 0
  {
    Decimal(vs[0]) + "." + Decimal(vs[1]) + "." + Decimal(vs[2]) + "." + Decimal(vs[3])
  }

  lemma {:induction false} DigitRunOfDigits(w: string, tail: string)
    requires AllDigits(w)
    requires tail == [] || !IsDigit(tail[0])
    ensures DigitRun(w + tail) == |w|
  {
    if w != [] {
      assert (w + tail)[1..] == w[1..] + tail;
      DigitRunOfDigits(w[1..], tail);
    }
  }

  lemma ScanDecimal(n: nat, tail: string)
    requires tail == [] || !IsDigit(tail[0])
    ensures ScanInteger(Decimal(n) + tail) == Some((n as int, tail))
  {
    var w := Decimal(n);
    var s := w + tail;
    assert s[0] == w[0] && IsDigit(s[0]);
    assert !IsSpace(s[0]);
    assert SkipSpace(s) == s;
    assert !(s[0] == '+' || s[0] == '-');
    DigitRunOfDigits(w, tail);
    assert s[..|w|] == w;
    assert s[|w|..] == tail;
  }

  lemma ScanDecimalDirective(n: nat, tail: string, fmt: seq<Directive>)
    requires n < UIntRange && fmt != [] && !fmt[0].Literal?
    requires tail == [] || !IsDigit(tail[0])
    ensures Scan(Decimal(n) + tail, fmt) == [n] + Scan(tail, fmt[1..])
  {
    ScanDecimal(n, tail);
    assert n % UIntRange == n;
  }

  lemma ScanLiteral(c: char, tail: string, fmt: seq<Directive>)
    requires fmt != [] && fmt[0] == Literal(c)
    ensures Scan([c] + tail, fmt) == Scan(tail, fmt[1..])
  {
    assert ([c] + tail)[1..] == tail;
  }

  /** The address rendered for the stream input scans back to the same four numbers. */
  lemma DottedQuadScansBack(vs: seq<int>)
    requires |vs| == 4 && forall i :: 0 <= i < 4 ==> 0 <= vs[i] < UIntRange
    ensures Scan(DottedQuad(vs), IpFormat) == vs
  {
    var f := IpFormat;
    var d0, d1, d2, d3 := Decimal(vs[0]), Decimal(vs[1]), Decimal(vs[2]), Decimal(vs[3]);
    var r2 := d3;
    var r1 := d2 + ("." + r2);
    var r0 := d1 + ("." + r1);
    assert DottedQuad(vs) == d0 + ("." + r0);
    var s3 := Scan(r2, f[6..]);
    ScanDecimalDirective(vs[3], [], f[6..]);
    assert r2 == d3 + [];
    assert f[7..] == [];
    assert s3 == [vs[3]];
    var s2 := Scan(r1, f[4..]);
    ScanDecimalDirective(vs[2], "." + r2, f[4..]);
    ScanLiteral('.', r2, f[5..]);
    assert f[4..][1..] == f[5..] && f[5..][1..] == f[6..];
    assert s2 == [vs[2]] + s3;
    var s1 := Scan(r0, f[2..]);
    ScanDecimalDirective(vs[1], "." + r1, f[2..]);
    ScanLiteral('.', r1, f[3..]);
    assert f[2..][1..] == f[3..] && f[3..][1..] == f[4..];
    assert s1 == [vs[1]] + s2;
    ScanDecimalDirective(vs[0], "." + r0, f);
    ScanLiteral('.', r0, f[1..]);
    assert f[1..][1..] == f[2..];
    assert Scan(DottedQuad(vs), f) == [vs[0]] + s1;
    FourElements(vs);
  }

  lemma FourElements(vs: seq<int>)
    requires |vs| == 4
    ensures [vs[0]] + ([vs[1]] + ([vs[2]] + [vs[3]])) == vs
  {
  }

  // ---------------------------------------------------------------------
  // The classification

  /** Which branch of the chain is taken. */
  datatype ArgChoice =
    | NoArgument
    | SvoFileArg
    | TransformsFileArg
    | StreamWithPort(values: seq<int>)
    | StreamAddressOnly
    | ResolutionArg(resolution: Resolution)
    | Unrecognised

  /** The tests on `argv[1]`, in the order the chain makes them. */
  function Classify(argv: seq<string>): (c: ArgChoice)
    ensures c.NoArgument? <==> |argv| <= 1
    ensures c.SvoFileArg? ==> Contains(argv[1], ".svo")
    ensures c.TransformsFileArg? ==> !Contains(argv[1], ".svo") && Contains(argv[1], ".txt")
    ensures c.StreamWithPort? ==> |c.values| == 5 && c.values == Scan(argv[1], IpPortFormat)
  {
    if |argv| > 1 && Contains(argv[1], ".svo") then SvoFileArg
    else if |argv| > 1 && Contains(argv[1], ".txt") then TransformsFileArg
    else if |argv| > 1 && !Contains(argv[1], ".svo") then
      var arg := argv[1];
      if |Scan(arg, IpPortFormat)| == 5 then StreamWithPort(Scan(arg, IpPortFormat))
      else if |Scan(arg, IpFormat)| == 4 then StreamAddressOnly
      else if Contains(arg, "HD2K") then ResolutionArg(HD2K)
      else if Contains(arg, "HD1200") then ResolutionArg(HD1200)
      else if Contains(arg, "HD1080") then ResolutionArg(HD1080)
      else if Contains(arg, "HD720") then ResolutionArg(HD720)
      else if Contains(arg, "SVGA") then ResolutionArg(SVGA)
      else if Contains(arg, "VGA") then ResolutionArg(VGA)
      else Unrecognised
    else NoArgument
  }

  /** A rule of the reference table: whether its test holds on the argument, and what it selects. */
  datatype Rule = Rule(holds: bool, choice: ArgChoice)

  /** The rules as a table, highest precedence first. */
  function Rules(arg: string): seq<Rule>
  {
    [ Rule(Contains(arg, ".svo"), SvoFileArg),
      Rule(Contains(arg, ".txt"), TransformsFileArg),
      Rule(|Scan(arg, IpPortFormat)| == 5, StreamWithPort(Scan(arg, IpPortFormat))),
      Rule(|Scan(arg, IpFormat)| == 4, StreamAddressOnly),
      Rule(Contains(arg, "HD2K"), ResolutionArg(HD2K)),
      Rule(Contains(arg, "HD1200"), ResolutionArg(HD1200)),
      Rule(Contains(arg, "HD1080"), ResolutionArg(HD1080)),
      Rule(Contains(arg, "HD720"), ResolutionArg(HD720)),
      Rule(Contains(arg, "SVGA"), ResolutionArg(SVGA)),
      Rule(Contains(arg, "VGA"), ResolutionArg(VGA)) ]
  }

  /** The choice of the first rule whose test holds, or `otherwise`. */
  function FirstMatch(rules: seq<Rule>, otherwise: ArgChoice): ArgChoice
  {
    if rules == [] then otherwise
    else if rules[0].holds then rules[0].choice
    else FirstMatch(rules[1..], otherwise)
  }

  /** The first rule that holds decides, whatever the later rules say. */
  lemma {:induction false} FirstMatchIsFirst(rules: seq<Rule>, otherwise: ArgChoice, k: int)
    requires 0 <= k < |rules| && rules[k].holds
    requires forall j :: 0 <= j < k ==> !rules[j].holds
    ensures FirstMatch(rules, otherwise) == rules[k].choice
  {
    if k > 0 {
      FirstMatchIsFirst(rules[1..], otherwise, k - 1);
    }
  }

  /** When no rule holds, the fallback is chosen. */
  lemma {:induction false} FirstMatchNone(rules: seq<Rule>, otherwise: ArgChoice)
    requires forall j :: 0 <= j < |rules| ==> !rules[j].holds
    ensures FirstMatch(rules, otherwise) == otherwise
  {
    if rules != [] {
      FirstMatchNone(rules[1..], otherwise);
    }
  }

  /** The chain of tests chooses exactly what the first holding rule of the table selects. */
  lemma ClassifyIsFirstMatch(argv: seq<string>)
    ensures Classify(argv) == if |argv| > 1 then FirstMatch(Rules(argv[1]), Unrecognised) else NoArgument
  {
    if |argv| > 1 {
      var rs := Rules(argv[1]);
      var u := Unrecognised;
      FirstMatchFrom(rs, 0, u);
      FirstMatchFrom(rs, 1, u);
      FirstMatchFrom(rs, 2, u);
      FirstMatchFrom(rs, 3, u);
      FirstMatchFrom(rs, 4, u);
      FirstMatchFrom(rs, 5, u);
      FirstMatchFrom(rs, 6, u);
      FirstMatchFrom(rs, 7, u);
      FirstMatchFrom(rs, 8, u);
      FirstMatchFrom(rs, 9, u);
      assert rs[0..] == rs;
      assert rs[10..] == [];
    }
  }

  /** One step of the search through the table. */
  lemma FirstMatchFrom(rules: seq<Rule>, k: int, otherwise: ArgChoice)
    requires 0 <= k < |rules|
    ensures FirstMatch(rules[k..], otherwise) ==
      if rules[k].holds then rules[k].choice else FirstMatch(rules[k + 1..], otherwise)
  {
    assert rules[k..][1..] == rules[k + 1..];
  }

  /** Every argument containing `SVGA` also contains `VGA`: only the order of the tests keeps SVGA reachable. */
  lemma SvgaContainsVga(s: string)
    requires Contains(s, "SVGA")
    ensures Contains(s, "VGA")
  {
    var i :| 0 <= i <= |s| - 4 && OccursAt(s, "SVGA", i);
    assert s[i + 1..i + 4] == s[i..i + 4][1..];
    assert OccursAt(s, "VGA", i + 1);
  }

  /** An argument containing `SVGA` never selects VGA. */
  lemma SvgaNeverSelectsVga(argv: seq<string>)
    requires |argv| > 1 && Contains(argv[1], "SVGA")
    ensures Classify(argv) != ResolutionArg(VGA)
  {
    ClassifyIsFirstMatch(argv);
    var rs := Rules(argv[1]);
    FirstMatchFrom(rs, 8, Unrecognised);
    FirstMatchFrom(rs, 9, Unrecognised);
  }

  /** The address-and-port form wins over the address-only form and every resolution keyword. */
  lemma IpPortTakesPrecedence(argv: seq<string>)
    requires |argv| > 1 && !Contains(argv[1], ".svo") && !Contains(argv[1], ".txt")
    requires |Scan(argv[1], IpPortFormat)| == 5
    ensures Classify(argv) == StreamWithPort(Scan(argv[1], IpPortFormat))
    ensures |Scan(argv[1], IpFormat)| == 4
  {
    IpPortMatchImpliesIpMatch(argv[1]);
  }

  // ---------------------------------------------------------------------
  // parse_args

  /**
   * `parse_args`: `param` and `arucoTransforms` are the reference
   * parameters it writes; the new values are returned.
   */
  method ParseArgs<F>(argv: seq<string>, param: InitParameters,
                      arucoTransforms: map<int, ArucoTable.Transform<F>>,
                      conv: ArucoTable.Converters<F>, fs: FileSystem)
    returns (param': InitParameters, arucoTransforms': map<int, ArucoTable.Transform<F>>, errors: seq<string>)
    ensures Classify(argv) == SvoFileArg ==>
      param' == param.(input := SvoInput(argv[1]), svoRealTimeMode := true)
    ensures Classify(argv) == StreamAddressOnly ==> param' == param.(input := StreamInput(argv[1], None))
    ensures Classify(argv).StreamWithPort? ==>
      var vs := Classify(argv).values;
      |vs| == 5 && param' == param.(input := StreamInput(DottedQuad(vs[..4]), Some(vs[4])))
    ensures Classify(argv).ResolutionArg? ==> param' == param.(cameraResolution := Classify(argv).resolution)
    ensures Classify(argv).NoArgument? || Classify(argv).TransformsFileArg? || Classify(argv).Unrecognised? ==>
      param' == param
    ensures TransformsFileLoaded(argv, arucoTransforms, conv, fs, arucoTransforms', errors)
  {
    var choice := Classify(argv);
    param' := param;
    match choice {
      case SvoFileArg =>
        param' := param'.(input := SvoInput(argv[1]), svoRealTimeMode := true);
      case StreamWithPort(vs) =>
        param' := param'.(input := StreamInput(DottedQuad(vs[..4]), Some(vs[4])));
      case StreamAddressOnly =>
        param' := param'.(input := StreamInput(argv[1], None));
      case ResolutionArg(r) =>
        param' := param'.(cameraResolution := r);
      case _ =>
    }
    arucoTransforms', errors := LoadTransformsArgument(argv, arucoTransforms, conv, fs);
  }

  /**
   * The file `parse_args` loads the transforms from, if any: the second
   * argument after an SVO file when it names a `.txt` file, or the first
   * argument when it does.
   */
  function TransformsArgument(argv: seq<string>): (r: Option<string>)
    ensures r.Some? ==> |argv| > 1 && Contains(r.value, ".txt")
    ensures r.Some? ==>
      || (Classify(argv) == SvoFileArg && |argv| > 2 && r.value == argv[2])
      || (Classify(argv) == TransformsFileArg && r.value == argv[1])
    ensures Classify(argv) == TransformsFileArg ==> r.Some?
    ensures Classify(argv) == SvoFileArg && |argv| > 2 && Contains(argv[2], ".txt") ==> r.Some?
  {
    match Classify(argv)
    case SvoFileArg => if |argv| > 2 && Contains(argv[2], ".txt") then Some(argv[2]) else None
    case TransformsFileArg => Some(argv[1])
    case _ => None
  }

  /** After an SVO file, the table is loaded from the second argument, and only when it names a `.txt` file. */
  lemma SvoLoadsOnlySecondArgument(argv: seq<string>)
    requires |argv| > 1 && Contains(argv[1], ".svo")
    ensures Classify(argv) == SvoFileArg
    ensures TransformsArgument(argv).Some? <==> |argv| > 2 && Contains(argv[2], ".txt")
    ensures TransformsArgument(argv).Some? ==> TransformsArgument(argv).value == argv[2]
  {
  }

  /** The transforms and error output after loading: unchanged when no file is named. */
  ghost predicate TransformsFileLoaded<F>(argv: seq<string>, before: map<int, ArucoTable.Transform<F>>,
                                          conv: ArucoTable.Converters<F>, fs: FileSystem,
                                          after: map<int, ArucoTable.Transform<F>>, errors: seq<string>)
  {
    match TransformsArgument(argv)
    case None => after == before && errors == []
    case Some(name) =>
      && after == ArucoTable.ReadTransforms(conv, fs, name)
      && errors == (if name in fs then [] else [ArucoTable.CouldNotOpen(name)])
  }

  method LoadTransformsArgument<F>(argv: seq<string>, arucoTransforms: map<int, ArucoTable.Transform<F>>,
                                   conv: ArucoTable.Converters<F>, fs: FileSystem)
    returns (arucoTransforms': map<int, ArucoTable.Transform<F>>, errors: seq<string>)
    ensures TransformsFileLoaded(argv, arucoTransforms, conv, fs, arucoTransforms', errors)
  {
    match TransformsArgument(argv)
    case None =>
      arucoTransforms', errors := arucoTransforms, [];
    case Some(name) =>
      arucoTransforms', errors := ArucoTable.ReadArucoTransforms(conv, fs, name);
  }
}
