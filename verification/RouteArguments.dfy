/** Base-6 parameter tags, and how a tagged rule's handler reads its arguments from the captures. */
module RouteArguments {
  import opened Common
  import opened RoutingTypes
  import opened TrieModel
  import opened TrieRules
  import opened RuleMeaning

  const TWO64: nat := 0x1_0000_0000_0000_0000

  function Code(t: ParamType): (c: nat)
    ensures 1 <= c <= 5
  {
    match t case INT => 1 case UINT => 2 case DOUBLE => 3 case STRING => 4 case PATH => 5
  }

  function ParamsOf(rule: seq<Token>): seq<ParamType> {
    if rule == [] then []
    else if rule[0].Param? then [rule[0].t] + ParamsOf(rule[1..])
    else ParamsOf(rule[1..])
  }

  function FindClosingTag(s: string, p: nat): (q: Option<nat>)
    requires p <= |s|
    ensures q.Some? ==> p <= q.value < |s| && s[q.value] == '>' && forall j :: p <= j < q.value ==> s[j] != '>'
    ensures q.None? ==> '>' !in s[p..]
    decreases |s| - p
  {
    if p == |s| then None else if s[p] == '>' then Some(p) else FindClosingTag(s, p + 1)
  }

  /** The tag of a rule string from `p` on, in 64-bit arithmetic; None where the source throws. */
  function ParameterTag(s: string, p: nat): Option<nat>
    requires p <= |s|
    decreases |s| - p
  {
    if p == |s| then Some(0)
    else if s[p] == '<' then
      match TagAt(s, p)
      case None => None
      case Some(tag) =>
        match FindClosingTag(s, p)
        case None => None
        case Some(q) =>
          match ParameterTag(s, q)
          case None => None
          case Some(rest) => Some((rest * 6 + Code(tag.t)) % TWO64)
    else ParameterTag(s, p + 1)
  }

  function Base6(ts: seq<ParamType>): nat {
    if ts == [] then 0 else Base6(ts[1..]) * 6 + Code(ts[0])
  }

  function Pow6(n: nat): nat { if n == 0 then 1 else 6 * Pow6(n - 1) }

  lemma {:induction false} Base6Bound(ts: seq<ParamType>)
    ensures Base6(ts) < Pow6(|ts|)
  {
    if ts != [] { Base6Bound(ts[1..]); }
  }

  lemma {:induction false} Pow6Grows(n: nat, m: nat)
    requires n <= m
    ensures Pow6(n) <= Pow6(m)
    decreases m - n
  {
    if n < m { Pow6Grows(n, m - 1); }
  }

  lemma Pow6Of24()
    ensures Pow6(24) == 4738381338321616896 < TWO64
  {
    assert Pow6(6) == 46656;
    assert Pow6(12) == 46656 * 46656 by { assert Pow6(12) == 46656 * Pow6(6); }
    assert Pow6(18) == 46656 * 46656 * 46656 by { assert Pow6(18) == 46656 * Pow6(12); }
    assert Pow6(24) == 46656 * 46656 * 46656 * 46656 by { assert Pow6(24) == 46656 * Pow6(18); }
  }

  lemma ClosingTagOf(s: string, p: nat)
    requires p < |s| && TagAt(s, p).Some?
    ensures FindClosingTag(s, p) == Some(p + TagLength(s, p) - 1)
  {
    hide TraitFrom;
    var w := TagAt(s, p).value.name;
    assert forall j :: p <= j < p + |w| ==> s[j] == s[p..p + |w|][j - p];
  }

  /** Reading on at the closing `>` is reading on behind it. */
  lemma TagStep(s: string, p: nat, rest: nat)
    requires p < |s| && s[p] == '<' && TagAt(s, p).Some? && ParameterTag(s, p + TagLength(s, p)) == Some(rest)
    ensures ParameterTag(s, p) == Some((rest * 6 + Code(TagAt(s, p).value.t)) % TWO64)
  {
    hide TraitFrom;
    ClosingTagOf(s, p);
    var q := p + TagLength(s, p) - 1;
    assert ParameterTag(s, q) == Some(rest);
  }

  lemma WrapsOnce(rest: nat, c: nat)
    ensures (rest % TWO64 * 6 + c) % TWO64 == (rest * 6 + c) % TWO64
  {
    var q, r := rest / TWO64, rest % TWO64;
    assert rest * 6 + c == (6 * q) * TWO64 + (r * 6 + c);
    ModAdds(6 * q, r * 6 + c);
  }

  lemma ModAdds(k: nat, n: nat)
    ensures (k * TWO64 + n) % TWO64 == n % TWO64
  {
    var q, r := n / TWO64, n % TWO64;
    assert k * TWO64 + n == (k + q) * TWO64 + r;
    assert (k * TWO64 + n) / TWO64 == k + q;
  }

  /** The 64-bit tag of a rule string is the base-6 number of its parameters modulo 2^64. */
  lemma {:induction false} TagIsBase6(s: string, p: nat)
    requires p <= |s| && WellFormed(s, p)
    ensures ParameterTag(s, p) == Some(Base6(ParamsOf(Tokens(s, p))) % TWO64)
    decreases |s| - p
  {
    hide TagAt;
    hide TraitFrom;
    hide ParameterTag;
    if p < |s| {
      var ts := Tokens(s, p);
      if s[p] == '<' {
        assert ts[1..] == Tokens(s, p + TagLength(s, p));
        var ps := ParamsOf(ts);
        assert ps == [ts[0].t] + ParamsOf(ts[1..]);
        TagIsBase6(s, p + TagLength(s, p));
        TagStep(s, p, Base6(ps[1..]) % TWO64);
        WrapsOnce(Base6(ps[1..]), Code(ps[0]));
      } else {
        assert ts[1..] == Tokens(s, p + 1);
        TagIsBase6(s, p + 1);
        TagSkips(s, p);
      }
    } else {
      TagEnds(s);
    }
  }

  lemma TagSkips(s: string, p: nat)
    requires p < |s| && s[p] != '<'
    ensures ParameterTag(s, p) == ParameterTag(s, p + 1)
  {}

  lemma TagEnds(s: string)
    ensures ParameterTag(s, |s|) == Some(0)
  {}

  /** The tag is the exact base-6 number of the parameters if and only if that number is below 2^64. */
  lemma TagOfRule(s: string)
    requires WellFormed(s, 0)
    ensures ParameterTag(s, 0) == Some(Base6(ParamsOf(Tokens(s, 0)))) <==> Base6(ParamsOf(Tokens(s, 0))) < TWO64
  {
    TagIsBase6(s, 0);
  }

  /** The digit of a tag in a rule string. */
  function TagDigit(name: string): (d: nat)
    ensures d <= 5
  {
    if name == "int" then 1 else if name == "uint" then 2 else if name == "float" || name == "double" then 3
    else if name == "str" || name == "string" then 4 else if name == "path" then 5 else 0
  }

  /** The number in base 6 of the tags in a rule, the first one lowest. */
  function TagNumber(parts: seq<RulePart>): nat {
    if parts == [] then 0
    else match parts[0] case Char(_) => TagNumber(parts[1..]) case Tag(name) => TagNumber(parts[1..]) * 6 + TagDigit(name)
  }

  lemma {:induction false} TagNumberIs(parts: seq<RulePart>)
    requires AreParts(parts)
    ensures Base6(ParamsOf(TokensOf(parts))) == TagNumber(parts)
    decreases |parts|
  {
    if parts != [] {
      TagNumberIs(parts[1..]);
      assert TokensOf(parts)[1..] == TokensOf(parts[1..]);
    }
  }

  /** The tag of a rule string by the tags that were written in it. */
  lemma TagOfText(parts: seq<RulePart>)
    requires AreParts(parts)
    ensures ParameterTag(RuleText(parts), 0) == Some(TagNumber(parts) % TWO64)
  {
    var s := RuleText(parts);
    assert s[0..] == s;
    RuleTextReads(s, 0, parts);
    TagNumberIs(parts);
    TagIsBase6(s, 0);
  }

  /** It is below 2^64 for all rules with at most 24 parameters. */
  lemma TagFits(ts: seq<ParamType>)
    requires |ts| <= 24
    ensures Base6(ts) < TWO64
  {
    Base6Bound(ts);
    Pow6Grows(|ts|, 24);
    Pow6Of24();
  }

  lemma {:induction false} PathsInBase6(ts: seq<ParamType>)
    requires forall i :: 0 <= i < |ts| ==> ts[i] == PATH
    ensures Base6(ts) == Pow6(|ts|) - 1
  {
    if ts != [] { PathsInBase6(ts[1..]); }
  }

  /** It is not for 25 parameters of type path. */
  lemma TagWraps(ts: seq<ParamType>)
    requires |ts| == 25 && forall i :: 0 <= i < |ts| ==> ts[i] == PATH
    ensures Base6(ts) >= TWO64
  {
    PathsInBase6(ts);
    Pow6Of24();
    assert Pow6(25) == 6 * Pow6(24);
  }

  // ----- decoding a tag into argument types, and binding arguments to captures -----

  datatype Kind = I64 | U64 | F64 | Text

  function KindOf(t: ParamType): Kind {
    match t case INT => I64 case UINT => U64 case DOUBLE => F64 case STRING => Text case PATH => Text
  }

  /** `arguments<Tag>`: the lowest digit is the first argument; digit 0 names no type. */
  function Arguments(tag: nat): Option<seq<Kind>> {
    if tag == 0 then Some([])
    else match Arguments(tag / 6)
      case None => None
      case Some(rest) =>
        match tag % 6
        case 1 => Some([I64] + rest)
        case 2 => Some([U64] + rest)
        case 3 => Some([F64] + rest)
        case 4 => Some([Text] + rest)
        case 5 => Some([Text] + rest)
        case _ => None
  }

  function KindsOf(ts: seq<ParamType>): seq<Kind> {
    if ts == [] then [] else [KindOf(ts[0])] + KindsOf(ts[1..])
  }

  /** Decoding a rule's tag gives its argument types from left to right. */
  lemma {:induction false} TagDecodes(ts: seq<ParamType>)
    ensures Arguments(Base6(ts)) == Some(KindsOf(ts))
  {
    if ts != [] {
      TagDecodes(ts[1..]);
      assert Base6(ts) / 6 == Base6(ts[1..]) && Base6(ts) % 6 == Code(ts[0]);
    }
  }

  function Pow2(n: nat): nat { if n == 0 then 1 else 2 * Pow2(n - 1) }

  lemma Pow2Of64()
    ensures Pow2(64) == TWO64
  {
    assert Pow2(8) == 0x100;
    assert Pow2(16) == 0x1_0000 by { assert Pow2(16) == 0x100 * Pow2(8); }
    assert Pow2(24) == 0x100_0000 by { assert Pow2(24) == 0x100 * Pow2(16); }
    assert Pow2(32) == 0x1_0000_0000 by { assert Pow2(32) == 0x100 * Pow2(24); }
    assert Pow2(40) == 0x100_0000_0000 by { assert Pow2(40) == 0x100 * Pow2(32); }
    assert Pow2(48) == 0x1_0000_0000_0000 by { assert Pow2(48) == 0x100 * Pow2(40); }
    assert Pow2(56) == 0x100_0000_0000_0000 by { assert Pow2(56) == 0x100 * Pow2(48); }
    assert Pow2(64) == 0x100 * Pow2(56);
  }

  /** A tag has no more digits than bits. */
  lemma {:induction false} DigitsNeedBits(tag: nat)
    requires Arguments(tag).Some?
    ensures Pow2(|Arguments(tag).value|) <= tag + 1
  {
    if tag != 0 { DigitsNeedBits(tag / 6); }
  }

  /** The last digits of two tags with the same first argument type; an even difference leaves none. */
  lemma LastDigit(a: nat, b: nat, c: int, x: int)
    requires a != 0 && b != 0 && Arguments(a).Some? && Arguments(a) == Arguments(b)
    requires c % 2 == 1 && c * (6 * (a / 6 - b / 6) + (a % 6 - b % 6)) == 2 * x
    ensures a % 6 == b % 6 && Arguments(a / 6).Some? && Arguments(a / 6) == Arguments(b / 6)
    ensures |Arguments(a / 6).value| == |Arguments(a).value| - 1 && (3 * c) * (a / 6 - b / 6) == x
  {
    hide Arguments;
    FirstDecoded(a);
    FirstDecoded(b);
    EvenDifference(a / 6 - b / 6, a % 6 - b % 6, c, x);
  }

  lemma EvenDifference(e: int, d: int, c: int, x: int)
    requires -1 <= d <= 1 && c % 2 == 1 && c * (6 * e + d) == 2 * x
    ensures d == 0 && (3 * c) * e == x
  {
    var y := c * e;
    assert c * (6 * e + d) == 6 * y + c * d;
    assert c * d == if d == 0 then 0 else if d == 1 then c else -c;
    assert (3 * c) * e == 3 * y;
  }

  lemma FirstDecoded(a: nat)
    requires a != 0 && Arguments(a).Some?
    ensures var ks := Arguments(a).value;
            ks != [] && Arguments(a / 6) == Some(ks[1..])
            && (match ks[0] case I64 => a % 6 == 1 case U64 => a % 6 == 2 case F64 => a % 6 == 3 case Text => 4 <= a % 6 <= 5)
  {}

  lemma HalfPow2(k: int, m: nat)
    requires m > 0
    ensures k * Pow2(m) == 2 * (k * Pow2(m - 1))
  {
    assert k * Pow2(m) == k * (2 * Pow2(m - 1));
  }

  /**
   * Two tags with the same argument types differ by no multiple of 2^m but 0, where m is at least their number: the
   * lowest digits that differ make the difference odd. `c` gathers the factors 3 of the sixes.
   */
  lemma {:induction false} SameKindsSameTag(a: nat, b: nat, m: nat, k: int, c: int)
    requires Arguments(a).Some? && Arguments(a) == Arguments(b) && |Arguments(a).value| <= m
    requires c % 2 == 1 && c * (a - b) == k * Pow2(m)
    ensures a == b
    decreases a
  {
    hide Arguments;
    hide Pow2;
    NothingDecoded();
    if a != 0 { FirstDecoded(a); }
    if b != 0 { FirstDecoded(b); }
    if a != 0 && b != 0 {
      HalfPow2(k, m);
      assert 6 * (a / 6 - b / 6) + (a % 6 - b % 6) == a - b;
      LastDigit(a, b, c, k * Pow2(m - 1));
      SameKindsSameTag(a / 6, b / 6, m - 1, k, 3 * c);
    }
  }

  lemma NothingDecoded()
    ensures Arguments(0) == Some([])
  {}

  /** Whenever the tag wraps, the handler's argument types come out wrong: they are right if and only if the tag fits. */
  lemma DecodesIffFits(s: string)
    requires WellFormed(s, 0)
    ensures var ps, tag := ParamsOf(Tokens(s, 0)), ParameterTag(s, 0);
            tag.Some? && (Arguments(tag.value) == Some(KindsOf(ps)) <==> Base6(ps) < TWO64)
  {
    hide TagAt;
    hide TraitFrom;
    hide ParameterTag;
    hide Pow2;
    var n := Base6(ParamsOf(Tokens(s, 0)));
    TagIsBase6(s, 0);
    TagDecodes(ParamsOf(Tokens(s, 0)));
    Pow2Of64();
    var tag := n % TWO64;
    if Arguments(tag) == Arguments(n) {
      DigitsNeedBits(tag);
      PowersGrow(|Arguments(tag).value|, 64);
      assert n - tag == (n / TWO64) * TWO64;
      SameKindsSameTag(n, tag, 64, n / TWO64, 1);
    }
  }

  /** No more than `m` bits, no more than `m` digits. */
  lemma {:induction false} PowersGrow(n: nat, m: nat)
    requires Pow2(n) <= Pow2(m)
    ensures n <= m
    decreases n
  {
    if n > 0 {
      if m == 0 { Pow2Positive(n - 1); } else { PowersGrow(n - 1, m - 1); }
    }
  }

  lemma {:induction false} Pow2Positive(n: nat)
    ensures Pow2(n) >= 1
  {
    if n > 0 { Pow2Positive(n - 1); }
  }

  /** An argument of a handler: its type and its position among the captures of that type. */
  datatype Slot = Slot(kind: Kind, pos: nat)

  datatype Counters = Counters(ints: nat, uints: nat, doubles: nat, strings: nat)

  /** `call`: each argument takes the next position of its own kind. */
  function Bind(kinds: seq<Kind>, n: Counters): seq<Slot> {
    if kinds == [] then [] else
      match kinds[0]
      case I64 => [Slot(I64, n.ints)] + Bind(kinds[1..], n.(ints := n.ints + 1))
      case U64 => [Slot(U64, n.uints)] + Bind(kinds[1..], n.(uints := n.uints + 1))
      case F64 => [Slot(F64, n.doubles)] + Bind(kinds[1..], n.(doubles := n.doubles + 1))
      case Text => [Slot(Text, n.strings)] + Bind(kinds[1..], n.(strings := n.strings + 1))
  }

  /** `get<T>(pos)`, undefined out of range. */
  function Read(ps: RoutingParams, s: Slot): Option<Capture> {
    match s.kind
    case I64 => if s.pos < |ps.ints| then Some(IntCap(ps.ints[s.pos])) else None
    case U64 => if s.pos < |ps.uints| then Some(UintCap(ps.uints[s.pos])) else None
    case F64 => if s.pos < |ps.doubles| then Some(DoubleCap(ps.doubles[s.pos])) else None
    case Text => if s.pos < |ps.strings| then Some(TextCap(ps.strings[s.pos])) else None
  }

  /** The captures of a matching rule, one per parameter, in the order the parameters stand in the rule. */
  function CapturesOf(lib: Libc, rule: seq<Token>, url: string, pos: nat): seq<Capture>
    requires pos <= |url| && Run(lib, rule, url, pos, NO_PARAMS).Some?
    decreases |rule|
  {
    if rule == [] then [] else
      match rule[0]
      case Lit(c) => CapturesOf(lib, rule[1..], url, pos + 1)
      case Param(t) =>
        var piece := Consume(lib, t, url, pos).value;
        MatchIgnoresCaptures(lib, rule[1..], url, piece.end, NO_PARAMS.Push(piece.cap), NO_PARAMS);
        [piece.cap] + CapturesOf(lib, rule[1..], url, piece.end)
  }

  lemma {:induction false} MatchIgnoresCaptures(lib: Libc, rule: seq<Token>, url: string, pos: nat, p: RoutingParams, q: RoutingParams)
    requires pos <= |url|
    ensures Run(lib, rule, url, pos, p).Some? == Run(lib, rule, url, pos, q).Some?
    decreases |rule|
  {
    if rule != [] && pos < |url| {
      match rule[0]
      case Lit(c) => if url[pos] == c { MatchIgnoresCaptures(lib, rule[1..], url, pos + 1, p, q); }
      case Param(t) =>
        var r := Consume(lib, t, url, pos);
        if r.Some? {
          MatchIgnoresCaptures(lib, rule[1..], url, r.value.end, p.Push(r.value.cap), q.Push(r.value.cap));
        }
    }
  }

  function Sizes(ps: RoutingParams): Counters {
    Counters(|ps.ints|, |ps.uints|, |ps.doubles|, |ps.strings|)
  }

  ghost predicate Extends(p: RoutingParams, q: RoutingParams) {
    p.ints <= q.ints && p.uints <= q.uints && p.doubles <= q.doubles && p.strings <= q.strings
  }

  lemma {:induction false} RunExtends(lib: Libc, rule: seq<Token>, url: string, pos: nat, ps: RoutingParams)
    requires pos <= |url| && Run(lib, rule, url, pos, ps).Some?
    ensures Extends(ps, Run(lib, rule, url, pos, ps).value)
    decreases |rule|
  {
    if rule != [] {
      match rule[0]
      case Lit(c) => RunExtends(lib, rule[1..], url, pos + 1, ps);
      case Param(t) =>
        var piece := Consume(lib, t, url, pos).value;
        RunExtends(lib, rule[1..], url, piece.end, ps.Push(piece.cap));
    }
  }

  lemma PushedIsRead(ps: RoutingParams, t: ParamType, cap: Capture, full: RoutingParams)
    requires cap.IntCap? == t.INT? && cap.UintCap? == t.UINT? && cap.DoubleCap? == t.DOUBLE?
    requires Extends(ps.Push(cap), full)
    ensures var slot := Bind([KindOf(t)], Sizes(ps))[0]; Read(full, slot) == Some(cap)
  {}

  lemma BindFirst(t: ParamType, kinds: seq<Kind>, ps: RoutingParams, cap: Capture)
    requires cap.IntCap? == t.INT? && cap.UintCap? == t.UINT? && cap.DoubleCap? == t.DOUBLE?
    ensures Bind([KindOf(t)] + kinds, Sizes(ps)) == [Bind([KindOf(t)], Sizes(ps))[0]] + Bind(kinds, Sizes(ps.Push(cap)))
  {
    assert ([KindOf(t)] + kinds)[1..] == kinds;
  }

  /** Every handler argument of a matched rule reads, in range, the capture of its own parameter. */
  lemma {:induction false} ArgumentsReadTheirCaptures(lib: Libc, rule: seq<Token>, url: string, pos: nat, ps: RoutingParams)
    requires pos <= |url| && Run(lib, rule, url, pos, ps).Some? && Run(lib, rule, url, pos, NO_PARAMS).Some?
    ensures var slots := Bind(KindsOf(ParamsOf(rule)), Sizes(ps));
            var caps := CapturesOf(lib, rule, url, pos);
            |slots| == |caps| == |ParamsOf(rule)|
            && forall n :: 0 <= n < |slots| ==> Read(Run(lib, rule, url, pos, ps).value, slots[n]) == Some(caps[n])
    decreases |rule|
  {
    if rule != [] {
      match rule[0]
      case Lit(c) => ArgumentsReadTheirCaptures(lib, rule[1..], url, pos + 1, ps);
      case Param(t) =>
        var piece := Consume(lib, t, url, pos).value;
        var next := ps.Push(piece.cap);
        MatchIgnoresCaptures(lib, rule[1..], url, piece.end, next, NO_PARAMS);
        ArgumentsReadTheirCaptures(lib, rule[1..], url, piece.end, next);
        var full := Run(lib, rule, url, pos, ps).value;
        RunExtends(lib, rule[1..], url, piece.end, next);
        PushedIsRead(ps, t, piece.cap, full);
        BindFirst(t, KindsOf(ParamsOf(rule[1..])), ps, piece.cap);
        assert ParamsOf(rule)[1..] == ParamsOf(rule[1..]);
    }
  }

  /** From rule string to handler call: the decoded tag binds argument n to the n-th parameter's capture. */
  lemma HandlerGetsItsCaptures(lib: Libc, s: string, url: string)
    requires WellFormed(s, 0) && Base6(ParamsOf(Tokens(s, 0))) < TWO64 && Matches(lib, Tokens(s, 0), url)
    ensures var tag := ParameterTag(s, 0);
            tag.Some? && Arguments(tag.value) == Some(KindsOf(ParamsOf(Tokens(s, 0))))
    ensures var slots := Bind(Arguments(ParameterTag(s, 0).value).value, Counters(0, 0, 0, 0));
            var caps := CapturesOf(lib, Tokens(s, 0), url, 0);
            |slots| == |caps| && forall n :: 0 <= n < |slots| ==>
              Read(Run(lib, Tokens(s, 0), url, 0, NO_PARAMS).value, slots[n]) == Some(caps[n])
  {
    TagOfRule(s);
    TagDecodes(ParamsOf(Tokens(s, 0)));
    ArgumentsReadTheirCaptures(lib, Tokens(s, 0), url, 0, NO_PARAMS);
  }

  // ----- the run-time form, on NUL-terminated text -----

  /** `strncmp(t + p, w, |w|) == 0`, one character at a time; a NUL in the text ends the comparison. */
  predicate SameText(t: string, p: nat, w: string)
    requires p < |t| && t[|t| - 1] == '\0' && '\0' !in w
    decreases |w|
  {
    w == [] || (t[p] == w[0] && SameText(t, p + 1, w[1..]))
  }

  /** `is_equ_n`: the bounds first, then one character at a time. */
  predicate IsEquN(s: string, p: nat, w: string)
    decreases |w|
  {
    if p + |w| > |s| then false else if w == [] then true else s[p] == w[0] && IsEquN(s, p + 1, w[1..])
  }

  /** Both comparisons find the text where it stands. */
  lemma {:induction false} ComparisonsAgree(s: string, p: nat, w: string)
    requires p <= |s| && '\0' !in w && '\0' !in s
    ensures SameText(s + ['\0'], p, w) <==> StartsAt(s, p, w)
    ensures IsEquN(s, p, w) <==> StartsAt(s, p, w)
    decreases |w|
  {
    var t := s + ['\0'];
    if w != [] {
      assert w[0] in w && w[0] != '\0';
      if p < |s| {
        ComparisonsAgree(s, p + 1, w[1..]);
        StartsStep(s, p, w);
      }
    }
  }

  lemma StartsStep(s: string, p: nat, w: string)
    requires w != [] && p < |s|
    ensures StartsAt(s, p, w) <==> s[p] == w[0] && StartsAt(s, p + 1, w[1..])
  {
    if p + |w| <= |s| {
      assert s[p..p + |w|] == [s[p]] + s[p + 1..p + |w|];
      assert w == [w[0]] + w[1..];
    }
  }

  lemma TagNamesHaveNoNul(n: nat)
    requires n < |PARAM_TRAITS|
    ensures '\0' !in PARAM_TRAITS[n].name
  {}

  function RuntimeTrait(t: string, p: nat, n: nat): Option<ParamType>
    requires n <= |PARAM_TRAITS| && p < |t| && t[|t| - 1] == '\0'
    decreases |PARAM_TRAITS| - n
  {
    if n == |PARAM_TRAITS| then None
    else
      TagNamesHaveNoNul(n);
      if SameText(t, p, PARAM_TRAITS[n].name) then Some(PARAM_TRAITS[n].t) else RuntimeTrait(t, p, n + 1)
  }

  function RuntimeClosingTag(t: string, p: nat): (q: Option<nat>)
    requires p < |t| && t[|t| - 1] == '\0'
    ensures q.Some? ==> p <= q.value < |t| && t[q.value] == '>'
    decreases |t| - p
  {
    if t[p] == '\0' then None else if t[p] == '>' then Some(p) else RuntimeClosingTag(t, p + 1)
  }

  /** `get_parameter_tag_runtime`. */
  function RuntimeTag(t: string, p: nat): Option<nat>
    requires p < |t| && t[|t| - 1] == '\0'
    decreases |t| - p
  {
    if t[p] == '\0' then Some(0)
    else if t[p] == '<' then
      match RuntimeTrait(t, p, 0)
      case None => None
      case Some(kind) =>
        match RuntimeClosingTag(t, p)
        case None => None
        case Some(q) =>
          match RuntimeTag(t, q)
          case None => None
          case Some(rest) => Some((rest * 6 + Code(kind)) % TWO64)
    else RuntimeTag(t, p + 1)
  }

  lemma {:induction false} TraitsAgree(s: string, p: nat, n: nat)
    requires n <= |PARAM_TRAITS| && p <= |s| && '\0' !in s
    ensures RuntimeTrait(s + ['\0'], p, n) == match TraitFrom(s, p, n) case None => None case Some(x) => Some(x.t)
    decreases |PARAM_TRAITS| - n
  {
    hide SameText;
    if n < |PARAM_TRAITS| {
      TagNamesHaveNoNul(n);
      ComparisonsAgree(s, p, PARAM_TRAITS[n].name);
      TraitsAgree(s, p, n + 1);
    }
  }

  lemma {:induction false} ClosingTagsAgree(s: string, p: nat)
    requires p <= |s| && '\0' !in s
    ensures RuntimeClosingTag(s + ['\0'], p) == FindClosingTag(s, p)
    decreases |s| - p
  {
    if p < |s| && s[p] != '>' { ClosingTagsAgree(s, p + 1); }
  }

  /** The compile-time and the run-time tag of every rule are the same, and so are their failures. */
  lemma {:induction false} TagsAgree(s: string, p: nat)
    requires p <= |s| && '\0' !in s
    ensures RuntimeTag(s + ['\0'], p) == ParameterTag(s, p)
    decreases |s| - p
  {
    hide RuntimeTrait;
    hide TraitFrom;
    hide RuntimeClosingTag;
    hide FindClosingTag;
    var t := s + ['\0'];
    if p < |s| {
      if s[p] == '<' {
        TraitsAgree(s, p, 0);
        ClosingTagsAgree(s, p);
        var q := FindClosingTag(s, p);
        if q.Some? { TagsAgree(s, q.value); }
      } else {
        TagsAgree(s, p + 1);
      }
    }
  }
}
