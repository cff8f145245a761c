/**
 How a handler gets its arguments: the base-6 parameter tag of lib/crow/include/crow/utility.h, the argument
 types decoded from it, and the per-type counters of routing.h that pick each argument from the typed vectors.
 */
module RouteTag {
  import opened Common
  import opened RouteMatch
  import opened RoutePattern

  const TWO_64: nat := 0x1_0000_0000_0000_0000

  datatype ArgType = Int64 | Uint64 | Double | Text

  function Code(kind: ParamType): nat {
    match kind case INT => 1 case UINT => 2 case DOUBLE => 3 case STRING => 4 case PATH => 5
  }

  function TypeOf(kind: ParamType): ArgType {
    match kind case INT => Int64 case UINT => Uint64 case DOUBLE => Double case STRING => Text case PATH => Text
  }

  function Codes(kinds: seq<ParamType>): seq<nat> { seq(|kinds|, k requires 0 <= k < |kinds| => Code(kinds[k])) }

  function Types(kinds: seq<ParamType>): seq<ArgType> { seq(|kinds|, k requires 0 <= k < |kinds| => TypeOf(kinds[k])) }

  // ---------------------------------------------------------------- encoding

  /** `find_closing_tag`; None when it throws. */
  function ClosingTag(url: string, p: nat): Option<nat>
    requires p <= |url|
    decreases |url| - p
  {
    if p == |url| then None else if url[p] == '>' then Some(p) else ClosingTag(url, p + 1)
  }

  lemma {:induction false} ClosingTagAt(url: string, p: nat, end: nat)
    requires p <= end < |url| && url[end] == '>' && forall j :: p <= j < end ==> url[j] != '>'
    ensures ClosingTag(url, p) == Some(end)
    decreases end - p
  {
    if p < end {
      ClosingTagAt(url, p + 1, end);
    }
  }

  lemma TagCloses(url: string, p: nat)
    requires TagAt(url, p).Some?
    ensures ClosingTag(url, p) == Some(p + TagAt(url, p).value.1 - 1)
  {
    ClosingTagAt(url, p, p + TagAt(url, p).value.1 - 1);
  }

  /** `get_parameter_tag`: 64-bit arithmetic, wrapping; None when it throws. */
  function TagFrom(url: string, p: nat): Option<nat>
    requires p <= |url|
    decreases |url| - p
  {
    if p == |url| then
      Some(0)
    else if url[p] == '<' then
      match TagAt(url, p)
      case None => None
      case Some((kind, size)) =>
        TagCloses(url, p);
        (match TagFrom(url, ClosingTag(url, p).value)
         case None => None
         case Some(rest) => Some((rest * 6 + Code(kind)) % TWO_64))
    else
      TagFrom(url, p + 1)
  }

  /** The number whose base-6 digits, lowest first, are the codes. */
  function Encode(kinds: seq<ParamType>): nat {
    if kinds == [] then 0 else Encode(kinds[1..]) * 6 + Code(kinds[0])
  }

  lemma WrapOnce(x: nat, c: nat)
    ensures ((x % TWO_64) * 6 + c) % TWO_64 == (x * 6 + c) % TWO_64
  {
    var q := x / TWO_64;
    assert x == q * TWO_64 + x % TWO_64;
    var y := (x % TWO_64) * 6 + c;
    assert x * 6 + c == y + (6 * q) * TWO_64;
    AddMultiple(y, 6 * q);
  }

  lemma {:induction false} AddMultiple(y: nat, k: nat)
    ensures (y + k * TWO_64) % TWO_64 == y % TWO_64
    decreases k
  {
    if k != 0 {
      AddMultiple(y, k - 1);
      assert y + k * TWO_64 == y + (k - 1) * TWO_64 + TWO_64;
    }
  }

  /** The encoding with every step wrapped, as get_parameter_tag computes it. */
  function WrappedCode(kinds: seq<ParamType>): nat {
    if kinds == [] then 0 else (WrappedCode(kinds[1..]) * 6 + Code(kinds[0])) % TWO_64
  }

  lemma {:induction false} WrappedCodeIsEncoding(kinds: seq<ParamType>)
    ensures WrappedCode(kinds) == Encode(kinds) % TWO_64
    decreases |kinds|
  {
    if kinds != [] {
      WrappedCodeIsEncoding(kinds[1..]);
      WrapOnce(Encode(kinds[1..]), Code(kinds[0]));
    }
  }

  lemma KindsOfFirst(tok: Token, rest: Pattern)
    ensures tok.Literal? ==> Kinds([tok] + rest) == Kinds(rest)
    ensures tok.Placeholder? ==> Kinds([tok] + rest) == [tok.kind] + Kinds(rest)
    ensures tok.Placeholder? ==>
        WrappedCode(Kinds([tok] + rest)) == (WrappedCode(Kinds(rest)) * 6 + Code(tok.kind)) % TWO_64
  {
    assert ([tok] + rest)[1..] == rest;
    if tok.Placeholder? {
      assert ([tok.kind] + Kinds(rest))[1..] == Kinds(rest);
    }
  }

  lemma TagFromTag(url: string, p: nat)
    requires p < |url| && url[p] == '<' && TagAt(url, p).Some?
    ensures var (kind, size) := TagAt(url, p).value;
            TagFrom(url, p) == match TagFrom(url, p + size)
                               case None => None
                               case Some(rest) => Some((rest * 6 + Code(kind)) % TWO_64)
  {
    var (kind, size) := TagAt(url, p).value;
    TagCloses(url, p);
    assert TagFrom(url, p + size - 1) == TagFrom(url, p + size);
  }

  /** The tag is the encoding of the kinds, or both are missing. */
  predicate Encodes(tag: Option<nat>, t: Option<Pattern>) {
    match t case None => tag == None case Some(tokens) => tag == Some(WrappedCode(Kinds(tokens)))
  }

  /** One placeholder in front. */
  lemma EncodesOneMore(kind: ParamType, tag: Option<nat>, t: Option<Pattern>)
    requires Encodes(tag, t)
    ensures Encodes(if tag.None? then None else Some((tag.value * 6 + Code(kind)) % TWO_64),
                    if t.None? then None else Some([Placeholder(kind)] + t.value))
  {
    if t.Some? {
      KindsOfFirst(Placeholder(kind), t.value);
    }
  }

  lemma {:induction false} TagEncodes(url: string, p: nat)
    requires p <= |url|
    ensures Encodes(TagFrom(url, p), PatternFrom(url, p)) == true
    decreases |url| - p
  {
    hide TagAt;
    if p < |url| && url[p] == '<' {
      match TagAt(url, p) {
        case None =>
        case Some((kind, size)) =>
          TagEncodes(url, p + size);
          TagFromTag(url, p);
          EncodesOneMore(kind, TagFrom(url, p + size), PatternFrom(url, p + size));
      }
    } else if p < |url| {
      TagEncodes(url, p + 1);
      if PatternFrom(url, p + 1).Some? {
        KindsOfFirst(Literal(url[p]), PatternFrom(url, p + 1).value);
      }
    }
  }

  /** The tag is the wrapped encoding of the placeholder kinds; it throws exactly when the trie's own reading of
      the rule text does not succeed. */
  lemma TagIsEncoding(url: string, p: nat)
    requires p <= |url|
    ensures TagFrom(url, p).Some? <==> PatternFrom(url, p).Some?
    ensures PatternFrom(url, p).Some? ==> TagFrom(url, p).value == WrappedCode(Kinds(PatternFrom(url, p).value))
  {
    TagEncodes(url, p);
  }

  // ---------------------------------------------------------------- decoding

  /** The base-6 digits of a tag, lowest first, as arguments<Tag> peels them off. */
  function Digits(tag: nat): seq<nat> {
    if tag == 0 then [] else [tag % 6] + Digits(tag / 6)
  }

  lemma {:induction false} DigitsOfEncoding(kinds: seq<ParamType>)
    ensures Digits(Encode(kinds)) == Codes(kinds)
    decreases |kinds|
  {
    if kinds == [] {
    } else {
      DigitsOfEncoding(kinds[1..]);
      var n := Encode(kinds);
      assert n % 6 == Code(kinds[0]) && n / 6 == Encode(kinds[1..]);
      assert Codes(kinds) == [Code(kinds[0])] + Codes(kinds[1..]);
    }
  }

  lemma {:induction false} DigitsAreUnique(a: nat, b: nat)
    requires Digits(a) == Digits(b)
    ensures a == b
    decreases a
  {
    if a == 0 || b == 0 {
      assert a != 0 ==> |Digits(a)| > 0;
      assert b != 0 ==> |Digits(b)| > 0;
    } else {
      assert Digits(a)[0] == a % 6 && Digits(b)[0] == b % 6;
      assert Digits(a / 6) == Digits(a)[1..] && Digits(b / 6) == Digits(b)[1..];
      DigitsAreUnique(a / 6, b / 6);
    }
  }

  lemma WrappedCodeFits(kinds: seq<ParamType>)
    ensures WrappedCode(kinds) == Encode(kinds) <==> Encode(kinds) < TWO_64
  {
    WrappedCodeIsEncoding(kinds);
  }

  lemma WrappedDigitsIff(kinds: seq<ParamType>)
    ensures Digits(WrappedCode(kinds)) == Codes(kinds) <==> Encode(kinds) < TWO_64
  {
    WrappedCodeFits(kinds);
    SameDigits(WrappedCode(kinds), kinds);
  }

  lemma SameDigits(w: nat, kinds: seq<ParamType>)
    ensures Digits(w) == Codes(kinds) <==> w == Encode(kinds)
  {
    DigitsOfEncoding(kinds);
    if Digits(w) == Codes(kinds) {
      DigitsAreUnique(w, Encode(kinds));
    }
  }

  /** The tag of a rule spells the placeholder kinds in order exactly when the encoding fits in 64 bits. */
  lemma TagSpellsKindsIff(url: string)
    requires PatternFrom(url, 0).Some?
    ensures var kinds := Kinds(PatternFrom(url, 0).value);
            TagFrom(url, 0).Some? && (Digits(TagFrom(url, 0).value) == Codes(kinds) <==> Encode(kinds) < TWO_64)
  {
    TagIsEncoding(url, 0);
    WrappedDigitsIff(Kinds(PatternFrom(url, 0).value));
  }

  function Pow6(n: nat): nat { if n == 0 then 1 else 6 * Pow6(n - 1) }

  lemma {:induction false} EncodeBound(kinds: seq<ParamType>)
    ensures Encode(kinds) < Pow6(|kinds|)
    decreases |kinds|
  {
    if kinds != [] {
      EncodeBound(kinds[1..]);
    }
  }

  lemma {:induction false} Pow6Grows(m: nat, n: nat)
    requires m <= n
    ensures Pow6(m) <= Pow6(n)
    decreases n
  {
    if m < n {
      Pow6Grows(m, n - 1);
    }
  }

  lemma SixToThe24()
    ensures Pow6(24) == 4738381338321616896 < TWO_64 < Pow6(25) - 1
  {
    assert Pow6(6) == 46656;
    assert Pow6(12) == 46656 * 46656;
    assert Pow6(18) == 101559956668416;
    assert Pow6(24) == 4738381338321616896;
  }

  /** Up to 24 placeholders the encoding does not overflow. */
  lemma TwentyFourFit(kinds: seq<ParamType>)
    requires |kinds| <= 24
    ensures Encode(kinds) < TWO_64
  {
    EncodeBound(kinds);
    Pow6Grows(|kinds|, 24);
    SixToThe24();
  }

  lemma {:induction false} AllPaths(kinds: seq<ParamType>)
    requires forall k :: 0 <= k < |kinds| ==> kinds[k] == PATH
    ensures Encode(kinds) == Pow6(|kinds|) - 1
    decreases |kinds|
  {
    if kinds != [] {
      AllPaths(kinds[1..]);
    }
  }

  /** 24 is the most that always fits: 25 paths do not. */
  lemma TwentyFiveMayNotFit(kinds: seq<ParamType>)
    requires |kinds| == 25 && forall k :: 0 <= k < |kinds| ==> kinds[k] == PATH
    ensures Encode(kinds) > TWO_64
  {
    AllPaths(kinds);
    SixToThe24();
  }

  /** The argument type of a digit; 0 has none (the template does not compile). */
  function SingleTag(digit: nat): Option<ArgType> {
    if digit == 1 then Some(Int64) else if digit == 2 then Some(Uint64) else if digit == 3 then Some(Double)
    else if digit == 4 || digit == 5 then Some(Text) else None
  }

  /** `arguments<Tag>` */
  function Arguments(tag: nat): Option<seq<ArgType>> {
    if tag == 0 then Some([])
    else
      match (SingleTag(tag % 6), Arguments(tag / 6))
      case (Some(t), Some(ts)) => Some([t] + ts)
      case _ => None
  }

  lemma {:induction false} ArgumentsOfEncoding(kinds: seq<ParamType>)
    ensures Arguments(Encode(kinds)) == Some(Types(kinds))
    decreases |kinds|
  {
    if kinds == [] {
    } else {
      ArgumentsOfEncoding(kinds[1..]);
      var n := Encode(kinds);
      assert n % 6 == Code(kinds[0]) && n / 6 == Encode(kinds[1..]);
      assert Types(kinds) == [TypeOf(kinds[0])] + Types(kinds[1..]);
    }
  }

  // ---------------------------------------------------------------- calling the handler

  /** The recursion of the `call` template: one counter per type, one (type, position) pair per argument. */
  function Call(nInt: nat, nUint: nat, nDouble: nat, nString: nat, types: seq<ArgType>): seq<(ArgType, nat)>
    decreases |types|
  {
    if types == [] then []
    else
      match types[0]
      case Int64 => [(Int64, nInt)] + Call(nInt + 1, nUint, nDouble, nString, types[1..])
      case Uint64 => [(Uint64, nUint)] + Call(nInt, nUint + 1, nDouble, nString, types[1..])
      case Double => [(Double, nDouble)] + Call(nInt, nUint, nDouble + 1, nString, types[1..])
      case Text => [(Text, nString)] + Call(nInt, nUint, nDouble, nString + 1, types[1..])
  }

  /** `params.get<type>(pos)`; None is an access outside the vector. */
  function Get(p: Params, t: ArgType, pos: nat): Option<Value> {
    match t
    case Int64 => if pos < |p.ints| then Some(IntValue(p.ints[pos])) else None
    case Uint64 => if pos < |p.uints| then Some(UintValue(p.uints[pos])) else None
    case Double => if pos < |p.doubles| then Some(DoubleValue(p.doubles[pos])) else None
    case Text => if pos < |p.strings| then Some(StringValue(p.strings[pos])) else None
  }

  function GetAll(p: Params, places: seq<(ArgType, nat)>): seq<Option<Value>> {
    seq(|places|, k requires 0 <= k < |places| => Get(p, places[k].0, places[k].1))
  }

  function HandlerArguments(p: Params, types: seq<ArgType>): seq<Option<Value>> {
    GetAll(p, Call(0, 0, 0, 0, types))
  }

  function Wrap(vs: seq<Value>): seq<Option<Value>> { seq(|vs|, k requires 0 <= k < |vs| => Some(vs[k])) }

  lemma {:induction false} PushAllExtends(p: Params, vs: seq<Value>)
    ensures p.ints <= p.PushAll(vs).ints && p.uints <= p.PushAll(vs).uints
    ensures p.doubles <= p.PushAll(vs).doubles && p.strings <= p.PushAll(vs).strings
    decreases |vs|
  {
    if vs != [] {
      PushAllExtends(p.Push(vs[0]), vs[1..]);
    }
  }

  lemma {:induction false} CallPicksPushed(p: Params, kinds: seq<ParamType>, vs: seq<Value>)
    requires MatchKinds(vs, kinds)
    ensures GetAll(p.PushAll(vs), Call(|p.ints|, |p.uints|, |p.doubles|, |p.strings|, Types(kinds))) == Wrap(vs)
    decreases |vs|
  {
    if kinds != [] {
      var p' := p.Push(vs[0]);
      CallPicksPushed(p', kinds[1..], vs[1..]);
      PushAllExtends(p', vs[1..]);
      assert Types(kinds)[1..] == Types(kinds[1..]);
      var t := TypeOf(kinds[0]);
      var pos := match t case Int64 => |p.ints| case Uint64 => |p.uints| case Double => |p.doubles|
                         case Text => |p.strings|;
      var places := Call(|p.ints|, |p.uints|, |p.doubles|, |p.strings|, Types(kinds));
      var rest := Call(|p'.ints|, |p'.uints|, |p'.doubles|, |p'.strings|, Types(kinds[1..]));
      assert places == [(t, pos)] + rest;
      assert Get(p.PushAll(vs), t, pos) == Some(vs[0]);
      assert GetAll(p.PushAll(vs), places) == [Some(vs[0])] + GetAll(p.PushAll(vs), rest);
      assert Wrap(vs) == [Some(vs[0])] + Wrap(vs[1..]);
    }
  }

  lemma WrappedTypes(kinds: seq<ParamType>)
    requires |kinds| <= 24
    ensures Arguments(WrappedCode(kinds)) == Some(Types(kinds))
  {
    TwentyFourFit(kinds);
    WrappedCodeFits(kinds);
    ArgumentsOfEncoding(kinds);
  }

  lemma TagGivesTypes(rule: string)
    requires PatternFrom(rule, 0).Some? && |Kinds(PatternFrom(rule, 0).value)| <= 24
    ensures TagFrom(rule, 0).Some?
    ensures Arguments(TagFrom(rule, 0).value) == Some(Types(Kinds(PatternFrom(rule, 0).value)))
  {
    TagIsEncoding(rule, 0);
    WrappedTypes(Kinds(PatternFrom(rule, 0).value));
  }

  lemma HandlerGetsPushed(rule: string, t: Pattern, caps: seq<Value>)
    requires PatternFrom(rule, 0) == Some(t) && |Kinds(t)| <= 24 && MatchKinds(caps, Kinds(t))
    ensures TagFrom(rule, 0).Some? && Arguments(TagFrom(rule, 0).value).Some?
    ensures HandlerArguments(NO_PARAMS.PushAll(caps), Arguments(TagFrom(rule, 0).value).value) == Wrap(caps)
  {
    TagGivesTypes(rule);
    CallPicksPushed(NO_PARAMS, Kinds(t), caps);
  }

  /** From rule text to handler: for a rule with at most 24 placeholders and a URL that divides into parts for them,
      the argument types decoded from the tag make the handler's k-th argument what the k-th placeholder took. */
  lemma HandlerGetsCaptures(rule: string, t: Pattern, num: NumberParsers, url: string, caps: seq<Value>)
    requires Sane(num) && Says(rule, t) && |Kinds(t)| <= 24 && Matches(num, t, url, 0, caps)
    ensures TagFrom(rule, 0).Some? && Arguments(TagFrom(rule, 0).value).Some?
    ensures HandlerArguments(NO_PARAMS.PushAll(caps), Arguments(TagFrom(rule, 0).value).value) == Wrap(caps)
  {
    PatternIff(rule, t);
    CapturesIff(num, t, url, 0, caps);
    CapturesHaveKinds(num, t, url, 0);
    HandlerGetsPushed(rule, t, caps);
  }

  /** The number of each tag name. */
  function NumberOf(name: string): nat {
    if name == "<int>" then 1 else if name == "<uint>" then 2 else if name == "<float>" || name == "<double>" then 3
    else if name == "<str>" || name == "<string>" then 4 else 5
  }

  lemma NumberIsCode(kind: ParamType, name: string)
    requires Names(Placeholder(kind), name)
    ensures NumberOf(name) == Code(kind)
  {
    assert "<int>"[1] == 'i' && "<str>"[1] == 's' && "<uint>"[1] == 'u' && "<path>"[1] == 'p';
    assert "<float>"[1] == 'f' && "<double>"[1] == 'd' && "<string>"[1] == 's';
  }

  /** The tag of a rule that is just a tag name. */
  lemma TagOfName(kind: ParamType, name: string)
    requires Names(Placeholder(kind), name)
    ensures TagFrom(name, 0) == Some(NumberOf(name))
  {
    hide Names, Says, NumberOf, TagFrom, PatternFrom;
    NumberIsCode(kind, name);
    EmptySays("", []);
    SaysOneMore(Placeholder(kind), name, [], "");
    assert name + "" == name && [Placeholder(kind)] + [] == [Placeholder(kind)];
    PatternIff(name, [Placeholder(kind)]);
    TagIsEncoding(name, 0);
    var t := [Placeholder(kind)];
    assert Kinds(t) == [kind] + Kinds(t[1..]) && Kinds(t[1..]) == [];
  }

  // ---------------------------------------------------------------- the check of dynamic rules

  /** `is_parameter_tag_compatible`: both digits it compares are taken from a. */
  predicate Compatible(a: nat, b: nat) {
    if a == 0 then b == 0
    else if b == 0 then a == 0
    else
      var sa, sb := a % 6, a % 6;
      var ta, tb := if sa == 5 then 4 else sa, if sb == 5 then 4 else sb;
      ta == tb && Compatible(a / 6, b / 6)
  }

  /** So all it checks is that the numbers of arguments agree. */
  lemma {:induction false} CompatibleIffSameCount(a: nat, b: nat)
    ensures Compatible(a, b) <==> |Digits(a)| == |Digits(b)|
    decreases a
  {
    if a != 0 && b != 0 {
      CompatibleIffSameCount(a / 6, b / 6);
    }
  }

  ghost predicate AllSome(all: seq<Option<Value>>) { forall k :: 0 <= k < |all| ==> all[k].Some? }

  lemma AllSomeCons(x: Option<Value>, rest: seq<Option<Value>>)
    ensures AllSome([x] + rest) <==> x.Some? && AllSome(rest)
  {
    if AllSome([x] + rest) {
      assert ([x] + rest)[0] == x;
      forall k | 0 <= k < |rest| ensures rest[k].Some? { assert ([x] + rest)[k + 1] == rest[k]; }
    }
  }

  /** A handler's arguments are all inside their vectors exactly when it asks for no more values of any type
      than the URL gives. */
  lemma {:induction false} ArgumentsInRangeIff(p: Params, types: seq<ArgType>, i: nat, u: nat, d: nat, s: nat)
    ensures AllSome(GetAll(p, Call(i, u, d, s, types)))
       <==> && (Count(types, Int64) == 0 || i + Count(types, Int64) <= |p.ints|)
            && (Count(types, Uint64) == 0 || u + Count(types, Uint64) <= |p.uints|)
            && (Count(types, Double) == 0 || d + Count(types, Double) <= |p.doubles|)
            && (Count(types, Text) == 0 || s + Count(types, Text) <= |p.strings|)
    decreases |types|
  {
    if types != [] {
      var i' := if types[0] == Int64 then i + 1 else i;
      var u' := if types[0] == Uint64 then u + 1 else u;
      var d' := if types[0] == Double then d + 1 else d;
      var s' := if types[0] == Text then s + 1 else s;
      ArgumentsInRangeIff(p, types[1..], i', u', d', s');
      var pos := match types[0] case Int64 => i case Uint64 => u case Double => d case Text => s;
      var rest := Call(i', u', d', s', types[1..]);
      assert Call(i, u, d, s, types) == [(types[0], pos)] + rest;
      assert GetAll(p, [(types[0], pos)] + rest) == [Get(p, types[0], pos)] + GetAll(p, rest);
      AllSomeCons(Get(p, types[0], pos), GetAll(p, rest));
    }
  }

  function Count(types: seq<ArgType>, t: ArgType): nat {
    if types == [] then 0 else (if types[0] == t then 1 else 0) + Count(types[1..], t)
  }

  /** The check lets a handler that takes a string pass for a rule with an int, and the call then reads
      outside the vector of strings. */
  lemma MismatchedHandlerPasses(n: int)
    ensures Compatible(Encode([INT]), Encode([STRING]))
    ensures HandlerArguments(NO_PARAMS.PushAll([IntValue(n)]), Types([STRING])) == [None]
  {
    CompatibleIffSameCount(Encode([INT]), Encode([STRING]));
    DigitsOfEncoding([INT]);
    DigitsOfEncoding([STRING]);
    assert Types([STRING]) == [Text];
    assert Call(0, 0, 0, 0, [Text]) == [(Text, 0)];
  }
}
