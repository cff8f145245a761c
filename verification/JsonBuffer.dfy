/**
 The parser and the unescaper of lib/crow/include/crow/json.h as they work inside one buffer: strings are ended
 and flagged by overwriting their quotes, object names are unescaped on the spot, other strings on first use.
 */
module JsonBuffer {
  import opened Bytes
  import opened Common
  import opened JsonText
  import opened JsonUnicode

  const ESCAPED: Byte := 1 as char   // the flag kept in front of a string that has escapes

  // ---------------------------------------------------------------- unescape

  lemma {:induction false} UnescapeUnit(s: Text, i: nat)
    requires i < |s| && WellEscaped(s, i)
    ensures UnitLength(s, i) != 0 && WellEscaped(s, i + UnitLength(s, i))
    ensures Unescape(s, i) == UnitValue(s, i) + Unescape(s, i + UnitLength(s, i))
  {
  }

  /** Writes some bytes from index at on. */
  method Put(buf: array<Byte>, at: nat, s: Text)
    requires at + |s| <= buf.Length
    modifies buf
    ensures buf[..][at..at + |s|] == s
    ensures forall k :: 0 <= k < buf.Length && !(at <= k < at + |s|) ==> buf[k] == old(buf[k])
  {
    var k := 0;
    while k < |s|
      invariant 0 <= k <= |s|
      invariant forall j :: 0 <= j < k ==> buf[at + j] == s[j]
      invariant forall j :: 0 <= j < buf.Length && !(at <= j < at + k) ==> buf[j] == old(buf[j])
    {
      buf[at + k] := s[k];
      k := k + 1;
    }
  }

  /** `unescape` of the string between start and end: the bytes from start to the new end are what the old ones
      mean, the write position never passes the read position, nothing outside the string and its two quotes is
      touched, and a second call does nothing because the flag in front is then clear. */
  method UnescapeInPlace(buf: array<Byte>, start: nat, end: nat) returns (end': nat)
    requires 1 <= start <= end < buf.Length
    requires buf[start - 1] != NUL ==> WellEscaped(buf[start..end], 0)
    modifies buf
    ensures old(buf[start - 1]) == NUL ==> end' == end && buf[..] == old(buf[..])
    ensures old(buf[start - 1]) != NUL ==>
              && start <= end' <= end && buf[start..end'] == Unescape(old(buf[start..end]), 0)
              && buf[end'] == NUL && buf[start - 1] == NUL
    ensures old(buf[start - 1]) != NUL ==> StandsFor(old(buf[start..end]), buf[start..end'])
    ensures forall k :: 0 <= k < buf.Length && !(start - 1 <= k <= end) ==> buf[k] == old(buf[k])
  {
    if buf[start - 1] == NUL {
      return end;
    }
    UnescapeIff(buf[start..end], Unescape(buf[start..end], 0));
    end' := UnescapeBytes(buf, start, end);
    buf[end'] := NUL;
    buf[start - 1] := NUL;
  }

  method UnescapeBytes(buf: array<Byte>, start: nat, end: nat) returns (tail: nat)
    requires start <= end <= buf.Length && WellEscaped(buf[start..end], 0)
    modifies buf
    ensures start <= tail <= end && buf[start..tail] == Unescape(old(buf[start..end]), 0)
    ensures forall k :: 0 <= k < buf.Length && !(start <= k < end) ==> buf[k] == old(buf[k])
  {
    ghost var raw := buf[start..end];
    var head: nat := start;
    tail := start;
    StartDecoding(buf[..], start, end, raw);
    while head != end
      invariant Decoding(buf[..], start, head, tail, end, raw)
      invariant forall k :: 0 <= k < buf.Length && !(start <= k < end) ==> buf[k] == old(buf[k])
      decreases end - head
    {
      head, tail := UnescapeOne(buf, start, head, tail, end, raw);
    }
    EndDecoding(buf[..], start, tail, end, raw);
    assert buf[start..tail] == buf[..][start..tail];
  }

  /** One turn of the loop. */
  method UnescapeOne(buf: array<Byte>, ghost start: nat, head: nat, tail: nat, end: nat, ghost raw: Text)
      returns (head': nat, tail': nat)
    requires head < end && Decoding(buf[..], start, head, tail, end, raw)
    modifies buf
    ensures head < head' && Decoding(buf[..], start, head', tail', end, raw)
    ensures forall k :: 0 <= k < buf.Length && !(start <= k < end) ==> buf[k] == old(buf[k])
  {
    assert UnitLength(raw, head - start) != 0 by { UnescapeUnit(raw, head - start); }
    var value, length := ReadUnit(buf, start, head, end, raw);
    WriteUnit(buf, start, head, tail, end, raw, value, length);
    head', tail' := head + length, tail + |value|;
  }

  /** The writes of one turn. */
  method WriteUnit(buf: array<Byte>, ghost start: nat, ghost head: nat, tail: nat, ghost end: nat, ghost raw: Text,
      value: Text, ghost length: nat)
    requires head < end && Decoding(buf[..], start, head, tail, end, raw)
    requires UnitLength(raw, head - start) == length != 0 && UnitValue(raw, head - start) == value
    modifies buf
    ensures Decoding(buf[..], start, head + length, tail + |value|, end, raw) == true
    ensures forall k :: 0 <= k < buf.Length && !(start <= k < end) ==> buf[k] == old(buf[k])
  {
    ghost var before := buf[..];
    assert |value| <= length && head + length <= end by { UnescapeUnit(raw, head - start); }
    Put(buf, tail, value);
    DecodingStep(before, buf[..], start, head, tail, end, raw, value, length);
  }

  /** The loop of unescape: the bytes before tail and the meaning of those from head on make up the meaning of
      the whole; those from head on are still unread and untouched. */
  ghost predicate Decoding(b: Text, start: nat, head: nat, tail: nat, end: nat, raw: Text) {
    && start <= tail <= head <= end <= |b| && |raw| == end - start
    && (forall k :: head <= k < end ==> b[k] == raw[k - start])
    && WellEscaped(raw, head - start) && WellEscaped(raw, 0)
    && b[start..tail] + Unescape(raw, head - start) == Unescape(raw, 0)
  }

  lemma {:induction false} StartDecoding(b: Text, start: nat, end: nat, raw: Text)
    requires start <= end <= |b| && raw == b[start..end] && WellEscaped(raw, 0)
    ensures Decoding(b, start, start, start, end, raw)
  {
    assert b[start..start] == [];
    assert [] + Unescape(raw, 0) == Unescape(raw, 0);
  }

  lemma {:induction false} EndDecoding(b: Text, start: nat, tail: nat, end: nat, raw: Text)
    requires Decoding(b, start, end, tail, end, raw)
    ensures b[start..tail] == Unescape(raw, 0)
  {
    assert b[start..tail] + [] == b[start..tail];
  }

  lemma WrittenSlice(b: Text, c: Text, start: nat, tail: nat, value: Text)
    requires start <= tail && tail + |value| <= |b| == |c| && c[tail..tail + |value|] == value
    requires forall k :: start <= k < tail ==> c[k] == b[k]
    ensures c[start..tail + |value|] == b[start..tail] + value
  {
    assert c[start..tail + |value|] == c[start..tail] + c[tail..tail + |value|];
    assert c[start..tail] == b[start..tail];
  }

  /** The unread bytes lie behind those that are written. */
  lemma StillUnread(b: Text, c: Text, start: nat, head: nat, tail: nat, end: nat, raw: Text, written: nat, length: nat)
    requires start <= tail <= head && head + length <= end <= |b| == |c| && |raw| == end - start && written <= length
    requires forall k :: head <= k < end ==> b[k] == raw[k - start]
    requires forall k :: tail + written <= k < |b| ==> c[k] == b[k]
    ensures forall k :: head + length <= k < end ==> c[k] == raw[k - start]
  {
  }

  lemma {:induction false} DecodingStep(b: Text, c: Text, start: nat, head: nat, tail: nat, end: nat, raw: Text,
      value: Text, length: nat)
    requires Decoding(b, start, head, tail, end, raw) && head < end && |b| == |c|
    requires UnitLength(raw, head - start) == length != 0 && UnitValue(raw, head - start) == value
    requires c[tail..tail + |value|] == value && forall k :: 0 <= k < |b| && !(tail <= k < tail + |value|) ==>
        c[k] == b[k]
    ensures Decoding(c, start, head + length, tail + |value|, end, raw)
  {
    hide Unescape, WellEscaped, UnitValue, UnitLength;
    UnescapeUnit(raw, head - start);
    StillUnread(b, c, start, head, tail, end, raw, |value|, length);
    var rest := Unescape(raw, head + length - start);
    WrittenSlice(b, c, start, tail, value);
    assert (b[start..tail] + value) + rest == b[start..tail] + (value + rest);
  }

  /** The switch of unescape: what is written for the bytes at head, and how far head moves. */
  method ReadUnit(buf: array<Byte>, ghost start: nat, head: nat, end: nat, ghost raw: Text)
      returns (value: Text, length: nat)
    requires start <= head < end <= buf.Length && |raw| == end - start
    requires forall k :: head <= k < end ==> buf[k] == raw[k - start]
    requires UnitLength(raw, head - start) != 0
    ensures value == UnitValue(raw, head - start) && length == UnitLength(raw, head - start)
  {
    if buf[head] != '\\' {
      return [buf[head]], 1;
    }
    var c := buf[head + 1];
    if c == 'u' {
      var code := FromHex(buf[head + 2]) * 4096 + FromHex(buf[head + 3]) * 256 + FromHex(buf[head + 4]) * 16
        + FromHex(buf[head + 5]);
      assert code == CodeOf(raw, head - start + 2);
      return Utf8(code), 6;
    }
    match SimpleEscape(c) {
      case Some(b) => return [b], 2;
    }
  }

  // ---------------------------------------------------------------- parsed values

  /** A parsed value: strings, names and numbers are ranges of the buffer. */
  datatype Value =
    | VNull | VFalse | VTrue
    | VNumber(start: nat, end: nat)
    | VString(start: nat, end: nat)
    | VList(l: seq<Value>)
    | VObject(o: seq<(Range, Value)>)

  datatype Range = Range(start: nat, end: nat)

  /** What a string range stands for: itself, or its unescaped form while the flag in front of it is set. */
  ghost predicate Means(b: Text, start: nat, end: nat, s: Text) {
    && 1 <= start <= end <= |b|
    && if b[start - 1] == NUL then b[start..end] == s
       else WellEscaped(b[start..end], 0) && Unescape(b[start..end], 0) == s
  }

  /** A value stands for v, and depends only on the bytes from lo up to hi. */
  ghost predicate Denotes(b: Text, x: Value, v: Json, lo: nat, hi: nat)
    requires lo <= hi <= |b|
    decreases x
  {
    match (x, v)
    case (VNull, JNull) => true
    case (VFalse, JFalse) => true
    case (VTrue, JTrue) => true
    case (VNumber(s, e), JNumber(t)) => lo <= s <= e <= hi && b[s..e] == t
    case (VString(s, e), JString(t)) => lo < s && e <= hi && Means(b, s, e, t)
    case (VList(xs), JList(vs)) => |xs| == |vs| && forall k :: 0 <= k < |xs| ==> Denotes(b, xs[k], vs[k], lo, hi)
    case (VObject(xs), JObject(vs)) =>
      && |xs| == |vs|
      && forall k :: 0 <= k < |xs| ==> DenotesField(b, xs[k], vs[k], lo, hi)
    case _ => false
  }

  ghost predicate DenotesField(b: Text, x: (Range, Value), v: (Text, Json), lo: nat, hi: nat)
    requires lo <= hi <= |b|
    decreases x
  {
    lo <= x.0.start <= x.0.end <= hi && b[x.0.start..x.0.end] == v.0 && Denotes(b, x.1, v.1, lo, hi)
  }

  ghost predicate SameBetween(b: Text, c: Text, lo: nat, hi: nat) {
    |b| == |c| && hi <= |b| && forall k :: lo <= k < hi ==> b[k] == c[k]
  }

  /** Writing elsewhere, or looking at a larger part of the buffer, does not change what a value stands for. */
  lemma {:induction false} DenotesStays(b: Text, c: Text, x: Value, v: Json, lo: nat, hi: nat, lo': nat, hi': nat)
    requires lo' <= lo <= hi <= hi' <= |b| && SameBetween(b, c, lo, hi) && Denotes(b, x, v, lo, hi)
    ensures Denotes(c, x, v, lo', hi')
    decreases x
  {
    match (x, v) {
      case (VNumber(s, e), JNumber(t)) => assert b[s..e] == c[s..e];
      case (VString(s, e), JString(t)) => assert b[s..e] == c[s..e];
      case (VList(xs), JList(vs)) =>
        forall k | 0 <= k < |xs|
          ensures Denotes(c, xs[k], vs[k], lo', hi')
        {
          DenotesStays(b, c, xs[k], vs[k], lo, hi, lo', hi');
        }
      case (VObject(xs), JObject(vs)) =>
        forall k | 0 <= k < |xs|
          ensures DenotesField(c, xs[k], vs[k], lo', hi')
        {
          FieldStays(b, c, xs[k], vs[k], lo, hi, lo', hi');
        }
      case _ =>
    }
  }

  lemma {:induction false} FieldStays(b: Text, c: Text, x: (Range, Value), v: (Text, Json), lo: nat, hi: nat, lo': nat,
      hi': nat)
    requires lo' <= lo <= hi <= hi' <= |b| && SameBetween(b, c, lo, hi) && DenotesField(b, x, v, lo, hi)
    ensures DenotesField(c, x, v, lo', hi')
    decreases x
  {
    assert b[x.0.start..x.0.end] == c[x.0.start..x.0.end];
    DenotesStays(b, c, x.1, v.1, lo, hi, lo', hi');
  }

  // ---------------------------------------------------------------- the parser

  ghost predicate DenotesAll(b: Text, xs: seq<Value>, vs: seq<Json>, lo: nat, hi: nat)
    requires lo <= hi <= |b|
  {
    |xs| == |vs| && forall k :: 0 <= k < |xs| ==> Denotes(b, xs[k], vs[k], lo, hi)
  }

  ghost predicate DenotesFields(b: Text, xs: seq<(Range, Value)>, vs: seq<(Text, Json)>, lo: nat, hi: nat)
    requires lo <= hi <= |b|
  {
    |xs| == |vs| && forall k :: 0 <= k < |xs| ==> DenotesField(b, xs[k], vs[k], lo, hi)
  }

  lemma {:induction false} AllStay(b: Text, c: Text, xs: seq<Value>, vs: seq<Json>, lo: nat, hi: nat, hi': nat)
    requires lo <= hi <= hi' <= |b| && SameBetween(b, c, lo, hi) && DenotesAll(b, xs, vs, lo, hi)
    ensures DenotesAll(c, xs, vs, lo, hi')
  {
    forall k | 0 <= k < |xs|
      ensures Denotes(c, xs[k], vs[k], lo, hi')
    {
      DenotesStays(b, c, xs[k], vs[k], lo, hi, lo, hi');
    }
  }

  lemma {:induction false} FieldsStay(b: Text, c: Text, xs: seq<(Range, Value)>, vs: seq<(Text, Json)>, lo: nat,
      hi: nat, hi': nat)
    requires lo <= hi <= hi' <= |b| && SameBetween(b, c, lo, hi) && DenotesFields(b, xs, vs, lo, hi)
    ensures DenotesFields(c, xs, vs, lo, hi')
  {
    forall k | 0 <= k < |xs|
      ensures DenotesField(c, xs[k], vs[k], lo, hi')
    {
      FieldStays(b, c, xs[k], vs[k], lo, hi, lo, hi');
    }
  }

  class Parser {
    const buf: array<Byte>
    ghost const text: Text   // what was loaded
    var data: nat            // the read position

    constructor (s: Text)
      ensures text == s && data == 0 && Valid() && fresh(buf)
    {
      text := s;
      data := 0;
      var b := new Byte[|s| + 1](k => if 0 <= k < |s| then s[k] else NUL);
      buf := b;
    }

    /** The part of the buffer that is still to be read is as it was loaded, with a NUL behind it. */
    ghost predicate Valid()
      reads this, buf
    {
      && buf.Length == |text| + 1 && data <= |text|
      && forall k :: data <= k < buf.Length ==> buf[k] == At(text, k)
    }

    /** What a method that reads from `from` on may have changed in the buffer. */
    twostate predicate OnlyWrote(from: nat)
      reads this, buf
    {
      forall k :: 0 <= k < buf.Length && !(from <= k < data) ==> buf[k] == old(buf[k])
    }

    method WsSkipHere()
      requires Valid()
      modifies `data
      ensures Valid() && data == WsSkip(text, old(data))
    {
      while buf[data] == ' ' || buf[data] == '\t' || buf[data] == '\r' || buf[data] == '\n'
        invariant Valid() && WsSkip(text, data) == WsSkip(text, old(data))
        decreases |text| - data
      {
        data := data + 1;
      }
    }

    /** `decode_string`: on success the string's range, ended and flagged in the buffer. */
    method DecodeString() returns (ok: bool, start: nat, end: nat)
      requires Valid()
      modifies this`data, buf
      ensures Valid() && OnlyWrote(old(data)) && old(data) <= data
      ensures ok == ParseString(text, old(data)).Some?
      ensures ok ==> start == old(data) + 1 && end + 1 == data == ParseString(text, old(data)).value.1
      ensures ok ==> Means(buf[..], start, end, ParseString(text, old(data)).value.0)
    {
      if buf[data] != '"' {
        return false, 0, 0;
      }
      data := data + 1;
      start := data;
      var hasEscaping;
      ok, hasEscaping := ScanString();
      if !ok {
        return false, 0, 0;
      }
      end := data;
      FlagString(start, hasEscaping);
    }

    /** Its loop: the content of a string, up to the closing quote. */
    method ScanString() returns (ok: bool, hasEscaping: Byte)
      requires Valid()
      modifies this`data
      ensures Valid() && old(data) <= data
      ensures ok == StringEnd(text, old(data)).Some?
      ensures ok ==> data == StringEnd(text, old(data)).value
      ensures ok && hasEscaping == NUL ==> forall k :: old(data) <= k < data ==> text[k] != '\\'
    {
      hasEscaping := NUL;
      while true
        invariant Valid() && old(data) <= data && StringEnd(text, data) == StringEnd(text, old(data))
        invariant hasEscaping == NUL ==> forall k :: old(data) <= k < data ==> text[k] != '\\'
        decreases |text| - data
      {
        if buf[data] != '"' && buf[data] != '\\' && buf[data] != NUL {
          data := data + 1;
        } else if buf[data] == '"' {
          return true, hasEscaping;
        } else if buf[data] == '\\' {
          hasEscaping := ESCAPED;
          var length := EscapeLength();
          if length == 0 {
            return false, hasEscaping;
          }
          data := data + length;
        } else {
          return false, hasEscaping;
        }
      }
    }

    /** Its end: the closing quote becomes a NUL, and the opening one the flag. */
    method FlagString(start: nat, hasEscaping: Byte)
      requires Valid() && 1 <= start <= data && StringEnd(text, start) == Some(data)
      requires forall k :: start <= k < data ==> buf[k] == text[k]
      requires hasEscaping == NUL ==> forall k :: start <= k < data ==> text[k] != '\\'
      modifies this`data, buf
      ensures Valid() && data == old(data) + 1 && OnlyWrote(start - 1)
      ensures WellEscaped(text[start..old(data)], 0)
      ensures Means(buf[..], start, old(data), Unescape(text[start..old(data)], 0))
    {
      ContentIsWellEscaped(text, start);
      if hasEscaping == NUL {
        PlainMeansItself(text[start..data], 0);
      }
      buf[data] := NUL;
      buf[start - 1] := hasEscaping;
      assert buf[..][start..data] == text[start..data];
      data := data + 1;
    }

    /** The check of one escape in decode_string. */
    method EscapeLength() returns (n: nat)
      requires Valid() && data < |text| && text[data] == '\\'
      ensures n == UnitLength(text, data)
    {
      var c := buf[data + 1];
      if c == 'u' {
        if IsHex(buf[data + 2]) && IsHex(buf[data + 3]) && IsHex(buf[data + 4]) && IsHex(buf[data + 5]) {
          return 6;
        }
        return 0;
      }
      return if SimpleEscape(c).Some? then 2 else 0;
    }

    /** `decode_number` */
    method DecodeNumber() returns (ok: bool, value: Value)
      requires Valid()
      modifies this`data
      ensures Valid() && old(data) <= data
      ensures ok == NumberEnd(text, old(data), 0).Some?
      ensures ok ==> data == NumberEnd(text, old(data), 0).value && value == VNumber(old(data), data)
      ensures ok ==> buf[..][old(data)..data] == text[old(data)..data]
    {
      var start, state := data, 0;
      value := VNull;
      while state != 7
        invariant 0 <= state <= 7 && old(data) <= data && Valid()
            && NumberEnd(text, data, state) == NumberEnd(text, old(data), 0)
        decreases |text| - data
      {
        match NumberStep(state, buf[data]) {
          case None =>
            ok := state == 2 || state == 3 || state == 4 || state == 6;
            assert forall k :: old(data) <= k < data ==> buf[k] == text[k];
            return ok, VNumber(start, data);
          case Some(next) =>
            state := next;
        }
        data := data + 1;
      }
      return false, value;
    }

    /** `decode_value` */
    method DecodeValue() returns (ok: bool, value: Value)
      requires Valid()
      modifies this`data, buf
      ensures Valid() && OnlyWrote(old(data)) && old(data) <= data
      ensures ok == ParseValue(text, old(data)).Some?
      ensures ok ==> data == ParseValue(text, old(data)).value.1
                     && Denotes(buf[..], value, ParseValue(text, old(data)).value.0, old(data), data)
      decreases |text| - data, 1
    {
      var c := buf[data];
      value := VNull;
      if c == '[' {
        ok, value := DecodeList();
      } else if c == '{' {
        ok, value := DecodeObject();
      } else if c == '"' {
        var start, end;
        ok, start, end := DecodeString();
        value := VString(start, end);
      } else if c == 't' {
        ok := buf[data + 1] == 'r' && buf[data + 2] == 'u' && buf[data + 3] == 'e';
        if ok {
          data, value := data + 4, VTrue;
        }
      } else if c == 'f' {
        ok := buf[data + 1] == 'a' && buf[data + 2] == 'l' && buf[data + 3] == 's' && buf[data + 4] == 'e';
        if ok {
          data, value := data + 5, VFalse;
        }
      } else if c == 'n' {
        ok := buf[data + 1] == 'u' && buf[data + 2] == 'l' && buf[data + 3] == 'l';
        if ok {
          data := data + 4;
        }
      } else {
        ok, value := DecodeNumber();
      }
    }

    /** What follows an element: the closing bracket, a comma and white space, or neither. */
    method Separator(close: Byte) returns (closed: bool, more: bool)
      requires Valid() && close != NUL && close != ','
      modifies this`data
      ensures Valid() && old(data) <= data
      ensures var j := WsSkip(text, old(data));
              && closed == (At(text, j) == close) && more == (At(text, j) == ',')
              && (closed ==> data == j + 1) && (more ==> data == WsSkip(text, j + 1) && data > old(data))
    {
      WsSkipHere();
      closed, more := buf[data] == close, buf[data] == ',';
      if closed {
        data := data + 1;
      } else if more {
        data := data + 1;
        WsSkipHere();
      }
    }

    /** The value at the start of a turn of the loop in decode_list, stored behind the earlier ones. */
    method DecodeItem(ghost lo: nat, items: seq<Value>, ghost sofar: seq<Json>)
        returns (ok: bool, items': seq<Value>, ghost sofar': seq<Json>)
      requires Valid() && lo <= data && DenotesAll(buf[..], items, sofar, lo, data)
      modifies this`data, buf
      ensures Valid() && OnlyWrote(old(data)) && old(data) <= data
      ensures ok == ParseValue(text, old(data)).Some?
      ensures ok ==>
          data == ParseValue(text, old(data)).value.1 && sofar' == sofar + [ParseValue(text, old(data)).value.0]
                     && DenotesAll(buf[..], items', sofar', lo, data)
      decreases |text| - data, 2
    {
      ghost var before, at := buf[..], data;
      var v;
      ok, v := DecodeValue();
      items', sofar' := items + [v], sofar;
      if ok {
        ghost var parsed := ParseValue(text, at).value.0;
        sofar' := sofar + [parsed];
        AllStay(before, buf[..], items, sofar, lo, at, data);
        DenotesStays(buf[..], buf[..], v, parsed, at, data, lo, data);
      }
    }

    /** `decode_list` */
    method DecodeList() returns (ok: bool, value: Value)
      requires Valid() && buf[data] == '['
      modifies this`data, buf
      ensures Valid() && OnlyWrote(old(data)) && old(data) <= data
      ensures ok == ParseValue(text, old(data)).Some?
      ensures ok ==> data == ParseValue(text, old(data)).value.1
                     && Denotes(buf[..], value, ParseValue(text, old(data)).value.0, old(data), data)
      decreases |text| - data, 0
    {
      ghost var lo := data;
      data := data + 1;
      WsSkipHere();
      if buf[data] == ']' {
        data := data + 1;
        return true, VList([]);
      }
      ok, value := DecodeItems(lo);
    }

    /** The loop. */
    method DecodeItems(ghost lo: nat) returns (ok: bool, value: Value)
      requires Valid() && lo < data
      modifies this`data, buf
      ensures Valid() && OnlyWrote(old(data)) && old(data) <= data
      ensures ok == ParseItems(text, old(data), []).Some?
      ensures ok ==> data == ParseItems(text, old(data), []).value.1
                     && Denotes(buf[..], value, ParseItems(text, old(data), []).value.0, lo, data)
      decreases |text| - data, 5
    {
      var items: seq<Value> := [];
      ghost var sofar: seq<Json> := [];
      while true
        invariant Valid() && lo < data && old(data) <= data && OnlyWrote(old(data))
        invariant ParseItems(text, old(data), []) == ParseItems(text, data, sofar)
            && DenotesAll(buf[..], items, sofar, lo, data)
        decreases |text| - data
      {
        var closed;
        ok, closed, items, sofar := NextItem(lo, items, sofar);
        if !ok {
          return false, VNull;
        }
        if closed {
          return true, VList(items);
        }
      }
    }

    /** One turn of the loop. */
    method NextItem(ghost lo: nat, items: seq<Value>, ghost sofar: seq<Json>)
        returns (ok: bool, closed: bool, items': seq<Value>, ghost sofar': seq<Json>)
      requires Valid() && lo <= data && DenotesAll(buf[..], items, sofar, lo, data)
      modifies this`data, buf
      ensures Valid() && OnlyWrote(old(data)) && old(data) <= data
      ensures ok ==> DenotesAll(buf[..], items', sofar', lo, data)
      ensures ok && !closed ==> old(data) < data
      ensures ParseItems(text, old(data), sofar) == if !ok then None
              else if closed then Some((JList(sofar'), data)) else ParseItems(text, data, sofar')
      decreases |text| - data, 4
    {
      closed := false;
      ok, items', sofar' := DecodeItem(lo, items, sofar);
      if ok {
        var more;
        closed, more := BehindItem(lo, items', sofar');
        ok := closed || more;
      }
    }

    /** One field of an object: the name is unescaped at once. */
    method DecodeField() returns (ok: bool, field: (Range, Value))
      requires Valid()
      modifies this`data, buf
      ensures Valid() && OnlyWrote(old(data)) && old(data) <= data
      ensures ok == ParseField(text, old(data)).Some?
      ensures ok ==> data == ParseField(text, old(data)).value.1
                     && DenotesField(buf[..], field, ParseField(text, old(data)).value.0, old(data), data)
      decreases |text| - data, 2
    {
      ghost var lo := data;
      field := (Range(0, 0), VNull);
      var name;
      ok, name := DecodeName();
      if !ok {
        return;
      }
      ghost var before, at := buf[..], data;
      var v;
      ok, v := DecodeValue();
      if ok {
        assert before[name.start..name.end] == buf[..][name.start..name.end];
        DenotesStays(buf[..], buf[..], v, ParseValue(text, at).value.0, at, data, lo, data);
        field := (name, v);
      }
    }

    /** A name, a colon, and the white space around it. */
    method DecodeName() returns (ok: bool, name: Range)
      requires Valid()
      modifies this`data, buf
      ensures Valid() && OnlyWrote(old(data)) && old(data) <= data
      ensures ok == NameEnd(text, old(data)).Some?
      ensures ok ==> data == NameEnd(text, old(data)).value.1 && old(data) < data
                     && old(data) <= name.start <= name.end <= data
                     && buf[..][name.start..name.end] == NameEnd(text, old(data)).value.0
    {
      hide StandsFor;
      name := Range(0, 0);
      var start, end;
      ok, start, end := DecodeString();
      if !ok {
        return;
      }
      ghost var b := buf[..];
      WsSkipHere();
      if buf[data] != ':' {
        ok := false;
        return;
      }
      data := data + 1;
      assert buf[start..end] == b[start..end];
      var end' := UnescapeInPlace(buf, start, end);
      assert buf[..][start..end'] == buf[start..end'];
      WsSkipHere();
      name := Range(start, end');
    }

    /** What is behind a field, with what the values so far stand for. */
    method BehindField(ghost lo: nat, ghost fields: seq<(Range, Value)>, ghost sofar: seq<(Text, Json)>)
        returns (closed: bool, more: bool)
      requires Valid() && lo <= data && DenotesFields(buf[..], fields, sofar, lo, data)
      modifies this`data
      ensures Valid() && old(data) <= data
      ensures var j := WsSkip(text, old(data));
              && closed == (At(text, j) == '}') && more == (At(text, j) == ',')
              && (closed ==> data == j + 1) && (more ==> data == WsSkip(text, j + 1) && data > old(data))
      ensures DenotesFields(buf[..], fields, sofar, lo, data) == true
    {
      ghost var end := data;
      closed, more := Separator('}');
      FieldsStay(buf[..], buf[..], fields, sofar, lo, end, data);
    }

    method BehindItem(ghost lo: nat, ghost items: seq<Value>, ghost sofar: seq<Json>) returns (closed: bool, more: bool)
      requires Valid() && lo <= data && DenotesAll(buf[..], items, sofar, lo, data)
      modifies this`data
      ensures Valid() && old(data) <= data
      ensures var j := WsSkip(text, old(data));
              && closed == (At(text, j) == ']') && more == (At(text, j) == ',')
              && (closed ==> data == j + 1) && (more ==> data == WsSkip(text, j + 1) && data > old(data))
      ensures DenotesAll(buf[..], items, sofar, lo, data)
    {
      ghost var end := data;
      closed, more := Separator(']');
      AllStay(buf[..], buf[..], items, sofar, lo, end, data);
    }

    /** The field at the start of a turn of the loop in decode_object, stored behind the earlier ones. */
    method DecodeOneField(ghost lo: nat, fields: seq<(Range, Value)>, ghost sofar: seq<(Text, Json)>)
      returns (ok: bool, fields': seq<(Range, Value)>, ghost sofar': seq<(Text, Json)>)
      requires Valid() && lo <= data && DenotesFields(buf[..], fields, sofar, lo, data)
      modifies this`data, buf
      ensures Valid() && OnlyWrote(old(data)) && old(data) <= data
      ensures ok == ParseField(text, old(data)).Some?
      ensures ok ==>
          data == ParseField(text, old(data)).value.1 && sofar' == sofar + [ParseField(text, old(data)).value.0]
                     && DenotesFields(buf[..], fields', sofar', lo, data) == true
      decreases |text| - data, 3
    {
      ghost var before, at := buf[..], data;
      var field;
      ok, field := DecodeField();
      fields', sofar' := fields + [field], sofar;
      if ok {
        ghost var parsed := ParseField(text, at).value.0;
        sofar' := sofar + [parsed];
        FieldsStay(before, buf[..], fields, sofar, lo, at, data);
        FieldStays(buf[..], buf[..], field, parsed, at, data, lo, data);
      }
    }

    /** `decode_object` */
    method DecodeObject() returns (ok: bool, value: Value)
      requires Valid() && buf[data] == '{'
      modifies this`data, buf
      ensures Valid() && OnlyWrote(old(data)) && old(data) <= data
      ensures ok == ParseValue(text, old(data)).Some?
      ensures ok ==> data == ParseValue(text, old(data)).value.1
                     && Denotes(buf[..], value, ParseValue(text, old(data)).value.0, old(data), data)
      decreases |text| - data, 0
    {
      ghost var lo := data;
      data := data + 1;
      WsSkipHere();
      if buf[data] == '}' {
        data := data + 1;
        return true, VObject([]);
      }
      ok, value := DecodeFields(lo);
    }

    /** The loop. */
    method DecodeFields(ghost lo: nat) returns (ok: bool, value: Value)
      requires Valid() && lo < data
      modifies this`data, buf
      ensures Valid() && OnlyWrote(old(data)) && old(data) <= data
      ensures ok == ParseFields(text, old(data), []).Some?
      ensures ok ==> data == ParseFields(text, old(data), []).value.1
                     && Denotes(buf[..], value, ParseFields(text, old(data), []).value.0, lo, data)
      decreases |text| - data, 5
    {
      var fields: seq<(Range, Value)> := [];
      ghost var sofar: seq<(Text, Json)> := [];
      while true
        invariant Valid() && lo < data && old(data) <= data && OnlyWrote(old(data))
        invariant ParseFields(text, old(data), []) == ParseFields(text, data, sofar)
            && DenotesFields(buf[..], fields, sofar, lo, data)
        decreases |text| - data
      {
        var closed;
        ok, closed, fields, sofar := NextField(lo, fields, sofar);
        if !ok {
          return false, VNull;
        }
        if closed {
          return true, VObject(fields);
        }
      }
    }

    /** One turn of the loop. */
    method NextField(ghost lo: nat, fields: seq<(Range, Value)>, ghost sofar: seq<(Text, Json)>)
        returns (ok: bool, closed: bool, fields': seq<(Range, Value)>, ghost sofar': seq<(Text, Json)>)
      requires Valid() && lo <= data && DenotesFields(buf[..], fields, sofar, lo, data)
      modifies this`data, buf
      ensures Valid() && OnlyWrote(old(data)) && old(data) <= data
      ensures ok ==> DenotesFields(buf[..], fields', sofar', lo, data) == true
      ensures ok && !closed ==> old(data) < data
      ensures ParseFields(text, old(data), sofar) == if !ok then None
              else if closed then Some((JObject(sofar'), data)) else ParseFields(text, data, sofar')
      decreases |text| - data, 4
    {
      closed := false;
      ghost var at := data;
      ok, fields', sofar' := DecodeOneField(lo, fields, sofar);
      if ok {
        var more;
        closed, more := BehindField(lo, fields', sofar');
        FieldsTurnIs(text, at, sofar, closed, more, data);
        ok := closed || more;
      }
    }

    /** `parse` */
    method Parse() returns (ok: bool, value: Value)
      requires Valid() && data == 0
      modifies this`data, buf
      ensures ok == Load(text).Some? && buf.Length == |text| + 1
      ensures ok ==> Denotes(buf[..], value, Load(text).value, 0, |text|)
    {
      WsSkipHere();
      ghost var at := data;
      ok, value := DecodeValue();
      ghost var end := data;
      if ok {
        DenotesStays(buf[..], buf[..], value, ParseValue(text, at).value.0, at, end, 0, |text|);
      }
      WsSkipHere();
      if ok && buf[data] != NUL {
        ok := false;
      }
    }
  }
}
