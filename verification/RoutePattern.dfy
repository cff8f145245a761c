/**
 Route patterns of lib/crow/include/crow: a rule's URL is a sequence of literal characters and typed
 placeholders; matching a request URL against it yields the captured values in order.
 */
module RoutePattern {
  import opened Bytes
  import opened Common

  datatype ParamType = INT | UINT | DOUBLE | STRING | PATH

  datatype Token = Literal(c: char) | Placeholder(kind: ParamType)

  type Pattern = seq<Token>

  /** A captured value; a double is represented by its bit pattern. */
  datatype Value = IntValue(i: int) | UintValue(u: int) | DoubleValue(bits: int) | StringValue(s: string)

  predicate HasKind(v: Value, kind: ParamType) {
    match kind
    case INT => v.IntValue?
    case UINT => v.UintValue?
    case DOUBLE => v.DoubleValue?
    case STRING => v.StringValue?
    case PATH => v.StringValue?
  }

  // ---------------------------------------------------------------- rule text to pattern

  predicate StartsAt(url: string, i: nat, name: string) {
    i + |name| <= |url| && url[i..i + |name|] == name
  }

  /** The tag names, tried in this order. */
  const PARAM_TRAITS: seq<(ParamType, string)> := [
    (INT, "<int>"), (UINT, "<uint>"), (DOUBLE, "<float>"), (DOUBLE, "<double>"),
    (STRING, "<str>"), (STRING, "<string>"), (PATH, "<path>")]

  ghost predicate IsTagName(name: string) {
    && |name| >= 5 && name[0] == '<' && name[|name| - 1] == '>'
    && forall j :: 0 <= j < |name| - 1 ==> name[j] != '>'
  }

  ghost predicate TagTable(table: seq<(ParamType, string)>) {
    forall k :: 0 <= k < |table| ==> IsTagName(table[k].1)
  }

  lemma TraitsAreTags()
    ensures TagTable(PARAM_TRAITS)
  {
    assert IsTagName("<int>") && IsTagName("<uint>") && IsTagName("<float>") && IsTagName("<double>");
    assert IsTagName("<str>") && IsTagName("<string>") && IsTagName("<path>");
  }

  /** A tag of this size, closed by the first `>` after position i. */
  ghost predicate ClosesAt(url: string, i: nat, size: nat) {
    && 5 <= size && i + size <= |url| && url[i] == '<' && url[i + size - 1] == '>'
    && forall j :: i <= j < i + size - 1 ==> url[j] != '>'
  }

  lemma TagNameCloses(url: string, i: nat, name: string)
    requires IsTagName(name) && StartsAt(url, i, name)
    ensures ClosesAt(url, i, |name|)
  {
    forall j | i <= j < i + |name|
      ensures url[j] == name[j - i]
    {
      assert url[i..i + |name|][j - i] == url[j];
    }
  }

  /** The first entry of a table whose name stands at a position, and the length of the name. */
  function FirstTag(table: seq<(ParamType, string)>, url: string, i: nat): (r: Option<(ParamType, nat)>)
    requires TagTable(table)
    ensures r.Some? ==> ClosesAt(url, i, r.value.1)
    decreases |table|
  {
    if table == [] then None
    else if StartsAt(url, i, table[0].1) then
      TagNameCloses(url, i, table[0].1);
      Some((table[0].0, |table[0].1|))
    else FirstTag(table[1..], url, i)
  }

  function TagAt(url: string, i: nat): (r: Option<(ParamType, nat)>)
    ensures r.Some? ==> ClosesAt(url, i, r.value.1)
  {
    TraitsAreTags();
    FirstTag(PARAM_TRAITS, url, i)
  }

  /** The pattern a rule text denotes from position i on; None if some `<` does not start a known tag. */
  function PatternFrom(url: string, i: nat): Option<Pattern>
    requires i <= |url|
    decreases |url| - i
  {
    if i == |url| then
      Some([])
    else if url[i] == '<' then
      match TagAt(url, i)
      case None => None
      case Some((kind, size)) =>
        (match PatternFrom(url, i + size)
         case None => None
         case Some(rest) => Some([Placeholder(kind)] + rest))
    else
      match PatternFrom(url, i + 1)
      case None => None
      case Some(rest) => Some([Literal(url[i])] + rest)
  }

  // ---------------------------------------------------------------- request URL to captures

  /** The outcome of a C number parser started inside the URL: no digits or out of range, or a value and the
      position of the first character it did not use. */
  datatype Conversion = NoConversion | Converted(value: int, end: nat)

  datatype NumberParsers = NumberParsers(
    strtoll: (string, nat) -> Conversion,
    strtoull: (string, nat) -> Conversion,
    strtod: (string, nat) -> Conversion)

  ghost predicate Advances(f: (string, nat) -> Conversion) {
    forall url, pos: nat :: pos < |url| && f(url, pos).Converted? ==> pos < f(url, pos).end <= |url|
  }

  ghost predicate Sane(num: NumberParsers) {
    Advances(num.strtoll) && Advances(num.strtoull) && Advances(num.strtod)
  }

  function SegmentEnd(url: string, pos: nat): (end: nat)
    requires pos <= |url|
    ensures pos <= end <= |url|
    ensures forall k :: pos <= k < end ==> url[k] != '/'
    ensures end < |url| ==> url[end] == '/'
    decreases |url| - pos
  {
    if pos == |url| || url[pos] == '/' then pos else SegmentEnd(url, pos + 1)
  }

  /** What a placeholder of one kind takes at a position: the value and where it ends. */
  function Scan(num: NumberParsers, kind: ParamType, url: string, pos: nat): (r: Option<(Value, nat)>)
    requires pos < |url|
    ensures r.Some? ==> HasKind(r.value.0, kind)
  {
    var c := url[pos];
    match kind
    case INT =>
      if !(IsDigit(c) || c == '+' || c == '-') then None
      else (match num.strtoll(url, pos) case NoConversion => None case Converted(v, end) => Some((IntValue(v), end)))
    case UINT =>
      if !(IsDigit(c) || c == '+') then None
      else (match num.strtoull(url, pos) case NoConversion => None case Converted(v, end) => Some((UintValue(v), end)))
    case DOUBLE =>
      if !(IsDigit(c) || c == '+' || c == '-' || c == '.') then None
      else (match num.strtod(url, pos) case NoConversion => None case Converted(v, end) => Some((DoubleValue(v), end)))
    case STRING =>
      var end := SegmentEnd(url, pos);
      if end == pos then None else Some((StringValue(url[pos..end]), end))
    case PATH =>
      Some((StringValue(url[pos..]), |url|))
  }

  lemma ScanAdvances(num: NumberParsers, kind: ParamType, url: string, pos: nat)
    requires Sane(num) && pos < |url|
    ensures Scan(num, kind, url, pos).Some? ==> pos < Scan(num, kind, url, pos).value.1 <= |url|
  {
  }

  /** Matching a URL from a position against a whole pattern: the captured values in order, or None. */
  ghost function Captures(num: NumberParsers, t: Pattern, url: string, pos: nat): Option<seq<Value>>
    requires Sane(num) && pos <= |url|
    decreases |t|
  {
    if pos == |url| then
      if t == [] then Some([]) else None
    else if t == [] then
      None
    else
      match t[0]
      case Literal(c) =>
        if url[pos] == c then Captures(num, t[1..], url, pos + 1) else None
      case Placeholder(kind) =>
        ScanAdvances(num, kind, url, pos);
        (match Scan(num, kind, url, pos)
         case None => None
         case Some((v, end)) =>
           (match Captures(num, t[1..], url, end)
            case None => None
            case Some(caps) => Some([v] + caps)))
  }

  /** The pattern starts with the characters of a fragment. */
  ghost predicate ReadsLiteral(t: Pattern, f: string) {
    |f| <= |t| && forall j :: 0 <= j < |f| ==> t[j] == Literal(f[j])
  }

  lemma {:induction false} CapturesLiteral(num: NumberParsers, t: Pattern, f: string, url: string, pos: nat)
    requires Sane(num) && pos <= |url| && f != "" && ReadsLiteral(t, f)
    ensures Captures(num, t, url, pos)
         == if StartsAt(url, pos, f) then Captures(num, t[|f|..], url, pos + |f|) else None
    decreases |f|
  {
    if pos < |url| && url[pos] == f[0] {
      if |f| == 1 {
        assert url[pos..pos + 1] == f;
      } else {
        CapturesLiteral(num, t[1..], f[1..], url, pos + 1);
        assert t[1..][|f[1..]|..] == t[|f|..];
        assert StartsAt(url, pos, f) <==> StartsAt(url, pos + 1, f[1..]) by {
          if pos + |f| <= |url| {
            assert url[pos..pos + |f|] == [url[pos]] + url[pos + 1..pos + |f|];
            assert f == [f[0]] + f[1..];
          }
        }
      }
    } else if pos + |f| <= |url| {
      assert url[pos] == url[pos..pos + |f|][0];
    }
  }

  /** The kinds of a pattern's placeholders, in order. */
  function Kinds(t: Pattern): seq<ParamType> {
    if t == [] then []
    else (match t[0] case Literal(_) => [] case Placeholder(kind) => [kind]) + Kinds(t[1..])
  }

  ghost predicate MatchKinds(caps: seq<Value>, kinds: seq<ParamType>) {
    |caps| == |kinds| && forall k :: 0 <= k < |kinds| ==> HasKind(caps[k], kinds[k])
  }

  lemma {:induction false} CapturesHaveKinds(num: NumberParsers, t: Pattern, url: string, pos: nat)
    requires Sane(num) && pos <= |url| && Captures(num, t, url, pos).Some?
    ensures MatchKinds(Captures(num, t, url, pos).value, Kinds(t))
    decreases |t|
  {
    if t == [] {
    } else {
      match t[0]
      case Literal(c) =>
        CapturesHaveKinds(num, t[1..], url, pos + 1);
      case Placeholder(kind) =>
        ScanAdvances(num, kind, url, pos);
        CapturesHaveKinds(num, t[1..], url, Scan(num, kind, url, pos).value.1);
    }
  }

  // ---------------------------------------------------------------- the typed vectors

  /** `routing_params`: one vector per type; `<str>` and `<path>` share the last one. */
  datatype Params = Params(ints: seq<int>, uints: seq<int>, doubles: seq<int>, strings: seq<string>) {
    function Push(v: Value): Params {
      match v
      case IntValue(i) => this.(ints := ints + [i])
      case UintValue(u) => this.(uints := uints + [u])
      case DoubleValue(bits) => this.(doubles := doubles + [bits])
      case StringValue(s) => this.(strings := strings + [s])
    }

    /** Removes the last element of the vector that holds values of this kind. */
    function Pop(kind: ParamType): Params {
      match kind
      case INT => if ints == [] then this else this.(ints := ints[..|ints| - 1])
      case UINT => if uints == [] then this else this.(uints := uints[..|uints| - 1])
      case DOUBLE => if doubles == [] then this else this.(doubles := doubles[..|doubles| - 1])
      case STRING => if strings == [] then this else this.(strings := strings[..|strings| - 1])
      case PATH => if strings == [] then this else this.(strings := strings[..|strings| - 1])
    }

    function PushAll(vs: seq<Value>): Params
      decreases |vs|
    {
      if vs == [] then this else Push(vs[0]).PushAll(vs[1..])
    }
  }

  const NO_PARAMS := Params([], [], [], [])

  lemma PopUndoesPush(p: Params, v: Value, kind: ParamType)
    requires HasKind(v, kind)
    ensures p.Push(v).Pop(kind) == p
  {
    match v {
      case IntValue(i) => assert (p.ints + [i])[..|p.ints|] == p.ints;
      case UintValue(u) => assert (p.uints + [u])[..|p.uints|] == p.uints;
      case DoubleValue(bits) => assert (p.doubles + [bits])[..|p.doubles|] == p.doubles;
      case StringValue(s) => assert (p.strings + [s])[..|p.strings|] == p.strings;
    }
  }
}
