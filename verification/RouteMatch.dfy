/**
 What a rule text says and what a match is, told on the texts alone: a rule is its literals and tag names in a row,
 and a match cuts the URL into one part for each of them.
 */
module RouteMatch {
  import opened Bytes
  import opened Common
  import opened RoutePattern

  // ---------------------------------------------------------------- rule texts

  /** The ways to write a token in a rule. */
  predicate Names(tok: Token, name: string) {
    match tok
    case Literal(c) => c != '<' && name == [c]
    case Placeholder(INT) => name == "<int>"
    case Placeholder(UINT) => name == "<uint>"
    case Placeholder(DOUBLE) => name == "<float>" || name == "<double>"
    case Placeholder(STRING) => name == "<str>" || name == "<string>"
    case Placeholder(PATH) => name == "<path>"
  }

  ghost predicate NamedBy(t: Pattern, names: seq<string>) {
    |names| == |t| && forall k :: 0 <= k < |t| ==> Names(t[k], names[k])
  }

  /** The text is these tokens, one behind the other. */
  ghost predicate Says(url: string, t: Pattern) { exists names :: NamedBy(t, names) && Concat(names) == url }

  /** No two tag names start at the same place. */
  lemma OneTag(url: string, i: nat, a: string, b: string)
    requires IsTagName(a) && IsTagName(b) && StartsAt(url, i, a) && StartsAt(url, i, b)
    ensures a == b
  {
    TagNameCloses(url, i, a);
    TagNameCloses(url, i, b);
    assert |a| == |b|;
  }

  lemma {:induction false} FirstTagFinds(table: seq<(ParamType, string)>, url: string, i: nat, k: nat)
    requires TagTable(table) && k < |table| && StartsAt(url, i, table[k].1)
    requires forall j :: 0 <= j < k ==> table[j].1 != table[k].1
    ensures FirstTag(table, url, i) == Some((table[k].0, |table[k].1|))
    decreases k
  {
    if k > 0 {
      if StartsAt(url, i, table[0].1) {
        OneTag(url, i, table[0].1, table[k].1);
      }
      FirstTagFinds(table[1..], url, i, k - 1);
    }
  }

  lemma {:induction false} FirstTagFound(table: seq<(ParamType, string)>, url: string, i: nat) returns (k: nat)
    requires TagTable(table) && FirstTag(table, url, i).Some?
    ensures k < |table| && StartsAt(url, i, table[k].1)
            && FirstTag(table, url, i) == Some((table[k].0, |table[k].1|))
    decreases |table|
  {
    k := 0;
    if !StartsAt(url, i, table[0].1) {
      k := FirstTagFound(table[1..], url, i);
      k := k + 1;
    }
  }

  /** Where each name stands in the table. */
  lemma NamesAreTraits(kind: ParamType, name: string) returns (k: nat)
    ensures Names(Placeholder(kind), name) ==>
              && k < |PARAM_TRAITS| && PARAM_TRAITS[k] == (kind, name)
              && forall j :: 0 <= j < k ==> PARAM_TRAITS[j].1 != name
  {
    var n := |name|;
    k := match kind case INT => 0 case UINT => 1 case DOUBLE => if n == 7 then 2 else 3
                    case STRING => if n == 5 then 4 else 5 case PATH => 6;
    if Names(Placeholder(kind), name) {
      assert |"<int>"| == 5 && |"<uint>"| == 6 && |"<float>"| == 7 && |"<double>"| == 8;
      assert "<int>"[1] == 'i' && "<str>"[1] == 's' && "<uint>"[1] == 'u' && "<path>"[1] == 'p';
      assert "<double>"[1] == 'd' && "<string>"[1] == 's';
    }
  }

  lemma TraitsAreNames(k: nat)
    requires k < |PARAM_TRAITS|
    ensures Names(Placeholder(PARAM_TRAITS[k].0), PARAM_TRAITS[k].1)
  {
  }

  /** A tag is read at a position exactly where one of its names stands. */
  lemma TagAtIff(url: string, i: nat, kind: ParamType, size: nat)
    ensures TagAt(url, i) == Some((kind, size))
       <==> exists name :: Names(Placeholder(kind), name) && StartsAt(url, i, name) && size == |name|
  {
    hide Names;
    TraitsAreTags();
    if TagAt(url, i) == Some((kind, size)) {
      var k := FirstTagFound(PARAM_TRAITS, url, i);
      TraitsAreNames(k);
    }
    forall name | Names(Placeholder(kind), name) && StartsAt(url, i, name)
      ensures TagAt(url, i) == Some((kind, |name|))
    {
      var k := NamesAreTraits(kind, name);
      FirstTagFinds(PARAM_TRAITS, url, i, k);
    }
  }

  lemma SaysOneMore(tok: Token, name: string, t: Pattern, url: string)
    requires Names(tok, name) && Says(url, t)
    ensures Says(name + url, [tok] + t)
  {
    hide Names;
    var names :| NamedBy(t, names) && Concat(names) == url;
    var more := [name] + names;
    assert more[1..] == names;
    assert NamedBy([tok] + t, more);
  }

  lemma SaysFirst(url: string, t: Pattern) returns (name: string)
    requires t != [] && Says(url, t)
    ensures Names(t[0], name) && |name| <= |url| && url[..|name|] == name && Says(url[|name|..], t[1..])
  {
    hide Names;
    var names :| NamedBy(t, names) && Concat(names) == url;
    name := names[0];
    assert NamedBy(t[1..], names[1..]);
    assert url[|name|..] == Concat(names[1..]);
  }

  lemma LiteralNames(c: char)
    ensures Names(Literal(c), [c]) <==> c != '<'
  {
  }

  lemma LiteralIs(c: char, name: string)
    requires Names(Literal(c), name)
    ensures c != '<' && name == [c]
  {
  }

  lemma EmptySays(url: string, t: Pattern)
    requires url == "" || t == []
    ensures Says(url, t) <==> url == "" && t == []
  {
    if t == [] && Says(url, t) {
      var names :| NamedBy(t, names) && Concat(names) == url;
      assert names == [];
    }
    if t == [] && url == "" {
      assert NamedBy(t, []) && Concat<char>([]) == url;
    }
    if t != [] && Says(url, t) {
      var name := SaysFirst(url, t);
      assert false;
    }
  }

  lemma NameStands(url: string, i: nat, name: string)
    requires StartsAt(url, i, name)
    ensures i + |name| <= |url| && url[i..] == name + url[i + |name|..]
  {
  }

  lemma {:induction false} PatternSays(url: string, i: nat)
    requires i <= |url| && PatternFrom(url, i).Some?
    ensures Says(url[i..], PatternFrom(url, i).value)
    decreases |url| - i
  {
    hide Names, Says, TagAt, StartsAt;
    if i == |url| {
      EmptySays(url[i..], []);
    } else {
      var tok, name := Literal(url[i]), [url[i]];
      if url[i] == '<' {
        var (kind, size) := TagAt(url, i).value;
        TagAtIff(url, i, kind, size);
        name :| Names(Placeholder(kind), name) && StartsAt(url, i, name) && size == |name|;
        NameStands(url, i, name);
        tok := Placeholder(kind);
      } else {
        LiteralNames(url[i]);
      }
      PatternSays(url, i + |name|);
      SaysOneMore(tok, name, PatternFrom(url, i + |name|).value, url[i + |name|..]);
      assert url[i..] == name + url[i + |name|..];
      assert PatternFrom(url, i).value == [tok] + PatternFrom(url, i + |name|).value;
    }
  }

  lemma TagStands(url: string, i: nat, kind: ParamType, name: string)
    requires Names(Placeholder(kind), name) && i + |name| <= |url| && url[i..i + |name|] == name
    ensures TagAt(url, i) == Some((kind, |name|)) && i < |url| && url[i] == '<'
  {
    hide Names, TagAt;
    assert StartsAt(url, i, name);
    TagAtIff(url, i, kind, |name|);
  }

  lemma {:induction false} SaidPattern(url: string, i: nat, t: Pattern)
    requires i <= |url| && Says(url[i..], t)
    ensures PatternFrom(url, i) == Some(t)
    decreases |url| - i
  {
    hide Names, Says, TagAt, StartsAt;
    if i == |url| || t == [] {
      EmptySays(url[i..], t);
    } else {
      var name := SaysFirst(url[i..], t);
      assert url[i..][|name|..] == url[i + |name|..] && url[i..][..|name|] == url[i..i + |name|];
      match t[0] {
        case Literal(c) =>
          LiteralIs(c, name);
          assert url[i] == url[i..i + 1][0];
        case Placeholder(kind) =>
          TagStands(url, i, kind, name);
      }
      SaidPattern(url, i + |name|, t[1..]);
      assert t == [t[0]] + t[1..];
    }
  }

  /** The pattern of a rule text is the one whose tokens the text names in a row. */
  lemma PatternIff(url: string, t: Pattern)
    ensures PatternFrom(url, 0) == Some(t) <==> Says(url, t)
  {
    assert url[0..] == url;
    if PatternFrom(url, 0) == Some(t) {
      PatternSays(url, 0);
    }
    if Says(url, t) {
      SaidPattern(url, 0, t);
    }
  }

  // ---------------------------------------------------------------- matches

  /** The characters a number may start with. */
  predicate StartsNumber(kind: ParamType, c: char) {
    match kind
    case INT => c in "0123456789+-"
    case UINT => c in "0123456789+"
    case DOUBLE => c in "0123456789+-."
    case _ => false
  }

  /** A placeholder takes the part of the URL from i to j and captures v: a number what its C parser reads there; a
      string the whole segment, and a path the whole rest. */
  ghost predicate IsTaken(num: NumberParsers, kind: ParamType, v: Value, url: string, i: nat, j: nat)
    requires i < j <= |url|
  {
    match kind
    case INT => v.IntValue? && StartsNumber(kind, url[i]) && num.strtoll(url, i) == Converted(v.i, j)
    case UINT => v.UintValue? && StartsNumber(kind, url[i]) && num.strtoull(url, i) == Converted(v.u, j)
    case DOUBLE => v.DoubleValue? && StartsNumber(kind, url[i]) && num.strtod(url, i) == Converted(v.bits, j)
    case STRING => v == StringValue(url[i..j]) && '/' !in url[i..j] && (j < |url| ==> url[j] == '/')
    case PATH => v == StringValue(url[i..j]) && j == |url|
  }

  /** The part for the k-th token, between two of the cuts; a placeholder's value is the next of the captures. */
  ghost predicate PartFits(num: NumberParsers, t: Pattern, url: string, cuts: seq<nat>, caps: seq<Value>, k: nat)
    requires k < |t| && |cuts| == |t| + 1 && |caps| == |Kinds(t)|
  {
    && cuts[k] < cuts[k + 1] <= |url|
    && match t[k]
       case Literal(c) => url[cuts[k]..cuts[k + 1]] == [c]
       case Placeholder(kind) =>
         KindsBefore(t, k);
         IsTaken(num, kind, caps[|Kinds(t[..k])|], url, cuts[k], cuts[k + 1])
  }

  /** The URL from pos on is one part for each token, in their order. */
  ghost predicate Divides(num: NumberParsers, t: Pattern, url: string, pos: nat, cuts: seq<nat>, caps: seq<Value>) {
    && |cuts| == |t| + 1 && cuts[0] == pos && cuts[|t|] == |url| && |caps| == |Kinds(t)|
    && forall k :: 0 <= k < |t| ==> PartFits(num, t, url, cuts, caps, k)
  }

  ghost predicate Matches(num: NumberParsers, t: Pattern, url: string, pos: nat, caps: seq<Value>) {
    exists cuts :: Divides(num, t, url, pos, cuts, caps)
  }

  function KindOf(tok: Token): seq<ParamType> {
    match tok case Literal(_) => [] case Placeholder(kind) => [kind]
  }

  lemma {:induction false} KindsParts(a: Pattern, b: Pattern)
    ensures Kinds(a + b) == Kinds(a) + Kinds(b)
    decreases |a|
  {
    if a == [] {
      assert a + b == b;
    } else {
      KindsParts(a[1..], b);
      assert (a + b)[1..] == a[1..] + b;
      assert (KindOf(a[0]) + Kinds(a[1..])) + Kinds(b) == KindOf(a[0]) + (Kinds(a[1..]) + Kinds(b));
    }
  }

  lemma KindsBefore(t: Pattern, k: nat)
    requires k < |t| && t[k].Placeholder?
    ensures |Kinds(t[..k])| < |Kinds(t)|
  {
    assert t == t[..k] + t[k..];
    KindsParts(t[..k], t[k..]);
  }

  /** What one token takes from i to j, and what it adds to the captures. */
  ghost predicate Takes(num: NumberParsers, tok: Token, url: string, i: nat, j: nat, taken: seq<Value>) {
    && i < j <= |url| && |taken| == |KindOf(tok)|
    && match tok
       case Literal(c) => url[i..j] == [c]
       case Placeholder(kind) => IsTaken(num, kind, taken[0], url, i, j)
  }

  lemma KindsShift(t: Pattern, k: nat)
    requires t != [] && k < |t| - 1
    ensures t[k + 1] == t[1..][k] && |Kinds(t[..k + 1])| == |KindOf(t[0])| + |Kinds(t[1..][..k])|
  {
    assert t[..k + 1][1..] == t[1..][..k];
  }

  /** The part of a later token is that of the rest of the pattern. */
  lemma PartShift(num: NumberParsers, t: Pattern, url: string, cuts: seq<nat>, caps: seq<Value>, k: nat)
    requires t != [] && k < |t| - 1 && |cuts| == |t| + 1 && |caps| == |Kinds(t)|
    ensures PartFits(num, t, url, cuts, caps, k + 1)
       <==> PartFits(num, t[1..], url, cuts[1..], caps[|KindOf(t[0])|..], k)
  {
    hide IsTaken, Kinds;
    assert |Kinds(t)| == |KindOf(t[0])| + |Kinds(t[1..])| by { KindsHead(t); }
    KindsShift(t, k);
    if t[k + 1].Placeholder? {
      KindsBefore(t, k + 1);
      KindsBefore(t[1..], k);
    }
  }

  lemma KindsHead(t: Pattern)
    requires t != []
    ensures Kinds(t) == KindOf(t[0]) + Kinds(t[1..]) && Kinds(t[..0]) == []
  {
  }

  lemma PartHead(num: NumberParsers, t: Pattern, url: string, cuts: seq<nat>, caps: seq<Value>)
    requires t != [] && |cuts| == |t| + 1 && |caps| == |Kinds(t)|
    ensures |KindOf(t[0])| <= |caps|
    ensures PartFits(num, t, url, cuts, caps, 0) <==> Takes(num, t[0], url, cuts[0], cuts[1], caps[..|KindOf(t[0])|])
  {
    hide IsTaken;
    KindsHead(t);
  }

  /** A division is what the first token takes and a division of the rest. */
  lemma DividesHead(num: NumberParsers, t: Pattern, url: string, cuts: seq<nat>, caps: seq<Value>)
    requires t != [] && |cuts| == |t| + 1 && |caps| == |Kinds(t)|
    ensures |KindOf(t[0])| <= |caps|
    ensures Divides(num, t, url, cuts[0], cuts, caps)
       <==> Takes(num, t[0], url, cuts[0], cuts[1], caps[..|KindOf(t[0])|])
            && Divides(num, t[1..], url, cuts[1], cuts[1..], caps[|KindOf(t[0])|..])
  {
    hide PartFits, Takes, Kinds;
    KindsHead(t);
    PartHead(num, t, url, cuts, caps);
    forall k | 0 <= k < |t| - 1
      ensures PartFits(num, t, url, cuts, caps, k + 1)
         <==> PartFits(num, t[1..], url, cuts[1..], caps[|KindOf(t[0])|..], k)
    {
      PartShift(num, t, url, cuts, caps, k);
    }
    if Takes(num, t[0], url, cuts[0], cuts[1], caps[..|KindOf(t[0])|])
       && Divides(num, t[1..], url, cuts[1], cuts[1..], caps[|KindOf(t[0])|..]) {
      forall k | 0 <= k < |t|
        ensures PartFits(num, t, url, cuts, caps, k)
      {
        if k > 0 {
          assert PartFits(num, t[1..], url, cuts[1..], caps[|KindOf(t[0])|..], k - 1);
        }
      }
    }
  }

  /** What a token takes is what the search takes for it. */
  lemma TakesIsScan(num: NumberParsers, kind: ParamType, url: string, i: nat, j: nat, v: Value)
    requires Sane(num) && i < |url|
    ensures Takes(num, Placeholder(kind), url, i, j, [v]) <==> Scan(num, kind, url, i) == Some((v, j))
  {
    ScanAdvances(num, kind, url, i);
    match kind {
      case STRING =>
        var end := SegmentEnd(url, i);
        if i < j <= |url| && '/' !in url[i..j] && (j < |url| ==> url[j] == '/') {
          assert forall k :: i <= k < j ==> url[k] == url[i..j][k - i];
          assert end == j;
        }
      case PATH => assert url[i..|url|] == url[i..];
      case INT => StartsIs(kind, url[i]);
      case UINT => StartsIs(kind, url[i]);
      case DOUBLE => StartsIs(kind, url[i]);
    }
  }

  lemma StartsIs(kind: ParamType, c: char)
    ensures StartsNumber(kind, c) <==>
            (kind.INT? || kind.UINT? || kind.DOUBLE?) &&
            (IsDigit(c) || c == '+' || (c == '-' && !kind.UINT?) || (c == '.' && kind.DOUBLE?))
  {
    var digits := "0123456789";
    assert IsDigit(c) ==> digits[c as int - '0' as int] == c;
    assert "0123456789+-" == digits + "+-" && "0123456789+" == digits + "+" && "0123456789+-." == digits + "+-.";
  }

  lemma LiteralTakes(num: NumberParsers, c: char, url: string, i: nat, j: nat)
    ensures Takes(num, Literal(c), url, i, j, []) <==> i < |url| && url[i] == c && j == i + 1
  {
    if i < j <= |url| {
      assert |url[i..j]| == j - i && url[i..j][0] == url[i];
      assert url[i..i + 1] == [url[i]];
    }
  }

  lemma {:induction false} CapturesDivide(num: NumberParsers, t: Pattern, url: string, pos: nat)
    returns (cuts: seq<nat>)
    requires Sane(num) && pos <= |url| && Captures(num, t, url, pos).Some?
    ensures Divides(num, t, url, pos, cuts, Captures(num, t, url, pos).value)
    decreases |t|
  {
    hide Scan, Takes;
    if t == [] {
      cuts := [pos];
    } else {
      var end, taken := pos + 1, [];
      match t[0] {
        case Literal(c) => LiteralTakes(num, c, url, pos, end);
        case Placeholder(kind) =>
          ScanAdvances(num, kind, url, pos);
          var (v, e) := Scan(num, kind, url, pos).value;
          end, taken := e, [v];
          TakesIsScan(num, kind, url, pos, e, v);
      }
      cuts := CapturesDivide(num, t[1..], url, end);
      var rest := Captures(num, t[1..], url, end).value;
      cuts := JoinCuts(num, t, url, pos, end, taken, cuts, rest);
      assert taken + rest == Captures(num, t, url, pos).value;
    }
  }

  lemma JoinCuts(num: NumberParsers, t: Pattern, url: string, pos: nat, end: nat, taken: seq<Value>, rest: seq<nat>,
      caps: seq<Value>) returns (cuts: seq<nat>)
    requires t != [] && Takes(num, t[0], url, pos, end, taken) && |taken| == |KindOf(t[0])|
    requires Divides(num, t[1..], url, end, rest, caps)
    ensures Divides(num, t, url, pos, cuts, taken + caps)
  {
    hide Takes, PartFits;
    cuts := [pos] + rest;
    var all := taken + caps;
    KindsHead(t);
    assert cuts[1..] == rest && all[..|taken|] == taken && all[|taken|..] == caps;
    DividesHead(num, t, url, cuts, all);
  }

  lemma {:induction false} DividesCaptures(num: NumberParsers, t: Pattern, url: string, pos: nat, cuts: seq<nat>,
      caps: seq<Value>)
    requires Sane(num) && pos <= |url| && Divides(num, t, url, pos, cuts, caps)
    ensures Captures(num, t, url, pos) == Some(caps)
    decreases |t|
  {
    hide Scan, Takes, PartFits;
    if t == [] {
      assert caps == [];
    } else {
      var n := |KindOf(t[0])|;
      DividesHead(num, t, url, cuts, caps);
      TakenInside(num, t[0], url, pos, cuts[1], caps[..n]);
      DividesCaptures(num, t[1..], url, cuts[1], cuts[1..], caps[n..]);
      match t[0] {
        case Literal(c) =>
          assert caps[..n] == [] && caps[n..] == caps;
          LiteralTakes(num, c, url, pos, cuts[1]);
        case Placeholder(kind) =>
          assert caps[..n] == [caps[0]] && [caps[0]] + caps[n..] == caps;
          TakesIsScan(num, kind, url, pos, cuts[1], caps[0]);
      }
    }
  }

  lemma TakenInside(num: NumberParsers, tok: Token, url: string, i: nat, j: nat, taken: seq<Value>)
    requires Takes(num, tok, url, i, j, taken)
    ensures i < j <= |url|
  {
  }

  /** A pattern matches with some captures exactly when the URL divides into parts for its tokens that capture
      them. */
  lemma CapturesIff(num: NumberParsers, t: Pattern, url: string, pos: nat, caps: seq<Value>)
    requires Sane(num) && pos <= |url|
    ensures Captures(num, t, url, pos) == Some(caps) <==> Matches(num, t, url, pos, caps)
  {
    hide Captures;
    if Captures(num, t, url, pos) == Some(caps) {
      var cuts := CapturesDivide(num, t, url, pos);
    }
    if Matches(num, t, url, pos, caps) {
      var cuts :| Divides(num, t, url, pos, cuts, caps);
      DividesCaptures(num, t, url, pos, cuts, caps);
    }
  }
}
