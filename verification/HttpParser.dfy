/**
 http_parser_execute of lib/crow/include/crow/http_parser_merged.h for requests: marks into the piece at hand,
 data callbacks for whole ranges, and bodies taken in bulk, proved against the byte-at-a-time machine.
 */
module HttpParser {
  import opened Bytes
  import opened Common
  import opened HttpSwitch
  import opened HttpMachine

  datatype Callback = DataCall(kind: Kind, bytes: seq<Byte>) | Notify(e: Event)

  function Tagged(kind: Kind, bytes: seq<Byte>): seq<Event> {
    seq(|bytes|, i requires 0 <= i < |bytes| => Data(kind, bytes[i]))
  }

  function Told(c: Callback): seq<Event> {
    match c case DataCall(kind, bytes) => Tagged(kind, bytes) case Notify(e) => [e]
  }

  /** All that a sequence of callbacks tells, byte by byte. */
  function Expand(calls: seq<Callback>): seq<Event>
    decreases |calls|
  {
    if calls == [] then [] else Expand(calls[..|calls| - 1]) + Told(calls[|calls| - 1])
  }

  lemma ExpandOneMore(calls: seq<Callback>, c: Callback)
    ensures Expand(calls + [c]) == Expand(calls) + Told(c)
  {
    assert (calls + [c])[..|calls|] == calls;
  }

  // ---------------------------------------------------------------- marks

  type Marks = map<Kind, nat>

  predicate IsBulk(s: State) { s.ChunkData? || s.BodyIdentity? }

  /** Position i of a piece of n bytes: at most one mark, the right one for the state. */
  ghost predicate Fits(marks: Marks, s: State, i: nat, n: nat) {
    && (forall k :: k in marks ==> marks[k] <= i)
    && match Owner(s)
       case Some(k) => marks.Keys == {k}
       case None => marks.Keys == {} || (marks.Keys == {BODY} && (s.ChunkDataAlmostDone? || (IsBulk(s) && i == n)))
  }

  function PendingOf(marks: Marks, k: Kind, data: seq<Byte>, i: nat): seq<Event>
    requires i <= |data|
  {
    if k in marks && marks[k] <= i then Tagged(k, data[marks[k]..i]) else []
  }

  /** What the set marks still have to deliver at position i. */
  function Pending(marks: Marks, data: seq<Byte>, i: nat): seq<Event>
    requires i <= |data|
  {
    PendingOf(marks, FIELD, data, i) + PendingOf(marks, VALUE, data, i) + PendingOf(marks, URL, data, i)
    + PendingOf(marks, BODY, data, i)
  }

  lemma PendingSingle(marks: Marks, k: Kind, data: seq<Byte>, i: nat)
    requires i <= |data| && marks.Keys == {k} && marks[k] <= i
    ensures Pending(marks, data, i) == Tagged(k, data[marks[k]..i])
  {
    match k { case URL => case FIELD => case VALUE => case BODY => }
  }

  lemma PendingNone(marks: Marks, data: seq<Byte>, i: nat)
    requires i <= |data| && marks.Keys == {}
    ensures Pending(marks, data, i) == []
  {
  }

  /** Marks, flushes and states go together in every pass outside the two bulk states. */
  ghost predicate PassMarks(s: State, ch: Byte, pass: Pass) {
    pass.Go? ==>
      var t := pass.p.state;
      match Carry(s, ch)
      case None =>
        && Owner(t) == None && !t.ChunkDataAlmostDone?
        && (if pass.mark.Some? then pass.flush == pass.mark && Owner(s) == None && !s.ChunkDataAlmostDone?
            else pass.flush == if s.ChunkDataAlmostDone? then Some(BODY) else Owner(s))
      case Some(k) =>
        && Owner(t) == Some(k) && pass.flush == None && !pass.again && pass.notes == [] && !s.ChunkDataAlmostDone?
        && (if Owner(s) == Some(k) then pass.mark == None else Owner(s) == None && pass.mark == Some(k))
  }

  lemma UrlMarks(p: Parser, ch: Byte)
    requires IsUrlState(p.state)
    ensures PassMarks(p.state, ch, SwitchUrl(p, ch))
  {
  }

  lemma ValueMarks(p: Parser, ch: Byte)
    ensures p.state.HeaderValue? ==> PassMarks(p.state, ch, SwitchValue(p, ch))
    ensures p.state.HeaderValueStart? ==> PassMarks(p.state, ch, SwitchValueStart(p, ch))
    ensures p.state.HeaderValueDiscardWs? ==> PassMarks(p.state, ch, SwitchDiscardWs(p, ch))
  {
  }

  lemma FieldMarks(p: Parser, ch: Byte)
    requires p.state.HeaderField?
    ensures PassMarks(p.state, ch, SwitchField(p, ch))
  {
    assert FieldChar(p, ch, TokenOf(ch)).state == p.state;
  }

  lemma RequestLineMarks(p: Parser, ch: Byte)
    requires InRequestLine(p.state) && !IsUrlState(p.state)
    ensures PassMarks(p.state, ch, Switch(p, ch))
  {
  }

  lemma HeaderLineMarks(p: Parser, ch: Byte)
    requires InHeaderLine(p.state)
    ensures PassMarks(p.state, ch, Switch(p, ch))
  {
    match p.state {
      case HeaderField => FieldMarks(p, ch);
      case HeaderValue | HeaderValueStart | HeaderValueDiscardWs => ValueMarks(p, ch);
      case _ =>
    }
  }

  lemma SwitchMarks(p: Parser, ch: Byte)
    requires !IsBulk(p.state)
    ensures PassMarks(p.state, ch, Switch(p, ch))
  {
    if IsUrlState(p.state) {
      UrlMarks(p, ch);
    } else if InRequestLine(p.state) {
      RequestLineMarks(p, ch);
    } else if InHeaderLine(p.state) {
      HeaderLineMarks(p, ch);
    }
  }

  /** One pass delivers what was pending, or adds the byte to it. */
  lemma PassDelivers(p: Parser, ch: Byte, marks: Marks, calls: seq<Callback>, data: seq<Byte>, i: nat)
    requires i < |data| && data[i] == ch && !IsBulk(p.state) && Fits(marks, p.state, i, |data|) && Switch(p, ch).Go?
    ensures var pass := Switch(p, ch);
            var (marks', calls') := Apply(pass, marks, calls, data, i);
            var i' := if pass.again then i else i + 1;
            && Fits(marks', pass.p.state, i', |data|) && BODY !in marks'
            && (pass.again ==> marks' == map[] && Open(pass.p.state) == None)
            && Expand(calls') + Pending(marks', data, i') == Expand(calls) + Pending(marks, data, i)
              + Carried(p.state, ch)
            && (pass.notes == [] || Pending(marks', data, i') == [])
  {
    SwitchMarks(p, ch);
    match Carry(p.state, ch) {
      case Some(k) =>
        PassMarksMore(p, ch, marks, calls, data, i, k);
        Assoc(Expand(calls), Pending(marks, data, i), Carried(p.state, ch));
      case None => PassFlushes(p, ch, marks, calls, data, i);
    }
  }

  lemma SliceOneMore(data: seq<Byte>, from: nat, i: nat)
    requires from <= i < |data|
    ensures data[from..i + 1] == data[from..i] + [data[i]]
    ensures data[from..i + 1][..i - from] == data[from..i]
  {
  }

  lemma PassMarksMore(p: Parser, ch: Byte, marks: Marks, calls: seq<Callback>, data: seq<Byte>, i: nat, k: Kind)
    requires i < |data| && data[i] == ch && !IsBulk(p.state) && Fits(marks, p.state, i, |data|) && Switch(p, ch).Go?
    requires PassMarks(p.state, ch, Switch(p, ch)) && Carry(p.state, ch) == Some(k)
    ensures var (marks', calls') := Apply(Switch(p, ch), marks, calls, data, i);
            && Fits(marks', Switch(p, ch).p.state, i + 1, |data|)
            && calls' == calls && Pending(marks', data, i + 1) == Pending(marks, data, i) + Carried(p.state, ch)
  {
    var marks' := Apply(Switch(p, ch), marks, calls, data, i).0;
    PendingSingle(marks', k, data, i + 1);
    if k in marks {
      PendingSingle(marks, k, data, i);
    } else {
      PendingNone(marks, data, i);
    }
    SliceOneMore(data, marks'[k], i);
    TaggedOneMore(k, data[marks'[k]..i + 1]);
  }

  lemma PassFlushes(p: Parser, ch: Byte, marks: Marks, calls: seq<Callback>, data: seq<Byte>, i: nat)
    requires i < |data| && data[i] == ch && !IsBulk(p.state) && Fits(marks, p.state, i, |data|) && Switch(p, ch).Go?
    requires PassMarks(p.state, ch, Switch(p, ch)) && Carry(p.state, ch) == None
    ensures var (marks', calls') := Apply(Switch(p, ch), marks, calls, data, i);
            && marks' == map[] && Expand(calls') == Expand(calls) + Pending(marks, data, i)
    ensures Fits(map[], Switch(p, ch).p.state, i, |data|)
        && Pending(map[], data, i) == [] == Pending(map[], data, i + 1)
    ensures Fits(map[], Switch(p, ch).p.state, i + 1, |data|)
    ensures forall x: seq<Event> :: x + [] == x
  {
    hide Switch;
    var pass := Switch(p, ch);
    PendingNone(map[], data, i);
    PendingNone(map[], data, i + 1);
    if marks.Keys == {} {
      PendingNone(marks, data, i);
      if pass.flush.Some? && pass.mark.Some? {
        assert Told(DataCall(pass.flush.value, data[i..i])) == [];
        ExpandOneMore(calls, DataCall(pass.flush.value, data[i..i]));
      }
    } else {
      var k := pass.flush.value;
      PendingSingle(marks, k, data, i);
      ExpandOneMore(calls, DataCall(k, data[marks[k]..i]));
    }
  }

  /** The mark and the data callback of a pass at position i. */
  function Apply(pass: Pass, marks: Marks, calls: seq<Callback>, data: seq<Byte>, i: nat): (Marks, seq<Callback>)
    requires i <= |data| && pass.Go? && forall k :: k in marks ==> marks[k] <= i
  {
    var marked := if pass.mark.Some? && pass.mark.value !in marks then marks[pass.mark.value := i] else marks;
    if pass.flush.Some? && pass.flush.value in marked then
      (marked - {pass.flush.value}, calls + [DataCall(pass.flush.value, data[marked[pass.flush.value]..i])])
    else
      (marked, calls)
  }

  /** The marks after the byte at position i: those from before, and those set there. */
  ghost predicate Kept(marks: Marks, marks': Marks, i: nat) {
    forall k :: k in marks' ==> marks'[k] == if k in marks then marks[k] else i
  }

  /** A byte that is looked at again when it ends some data does not begin the same kind. */
  lemma AgainLeaves(p: Parser, ch: Byte)
    requires Owner(p.state).Some? && Switch(p, ch).Go? && Switch(p, ch).again && Passes(p, ch).Running?
    ensures Owner(Passes(p, ch).p.state) == None
  {
    hide Switch, Owner;
    OnlyValueAgain(p, ch);
    LineEndIsOutside(Switch(p, ch).p, ch);
  }

  lemma OnlyValueAgain(p: Parser, ch: Byte)
    requires Owner(p.state).Some? && Switch(p, ch).Go? && Switch(p, ch).again
    ensures Switch(p, ch).p.state.HeaderAlmostDone?
  {
    if p.state.HeaderValue? {
      assert Switch(p, ch) == SwitchValue(p, ch);
    }
  }

  lemma LineEndIsOutside(p: Parser, ch: Byte)
    requires p.state.HeaderAlmostDone? && Passes(p, ch).Running?
    ensures Owner(Passes(p, ch).p.state) == None
  {
    assert Switch(p, ch) == Expect(p, ch, LF, HeaderValueLws);
  }

  /** What is pending when the parser stops is told only if the stop is outside that data. */
  function Withheld(o: Outcome, marks: Marks, data: seq<Byte>, i: nat): seq<Event>
    requires i <= |data|
  {
    if o.Halted? && o.open.Some? then Pending(marks, data, i) else []
  }

  lemma PassesStopped(p: Parser, ch: Byte)
    requires !Switch(p, ch).Go?
    ensures var pass := Switch(p, ch);
            Passes(p, ch) == if pass.Stop? then Halted(pass.errno, [], Open(p.state)) else Upgraded([MessageComplete])
  {
  }

  lemma PassesOn(p: Parser, ch: Byte)
    requires Switch(p, ch).Go?
    ensures var pass := Switch(p, ch);
            var o := if pass.again then Passes(pass.p, ch) else Running(pass.p, []);
            Passes(p, ch) == Prepend(Carried(p.state, ch) + pass.notes, o)
  {
  }

  /** A parser that stops outside all data has nothing pending, and an upgrade is outside all data. */
  lemma StopsOutside(p: Parser, ch: Byte, marks: Marks, data: seq<Byte>, i: nat)
    requires i < |data| && !IsBulk(p.state) && Fits(marks, p.state, i, |data|) && !Switch(p, ch).Go?
    ensures Open(p.state) == None || Switch(p, ch).UpgradeExit? ==> Pending(marks, data, i) == []
  {
    if Open(p.state) == None {
      PendingNone(marks, data, i);
    }
  }

  lemma KeptAgain(marks: Marks, marks': Marks, i: nat, n: nat, s: State, t: State)
    requires Fits(marks, s, i, n) && Fits(marks', t, i + 1, n) && BODY !in marks' && Kept(map[], marks', i)
    requires Owner(s).Some? ==> Owner(t) == None
    ensures Kept(marks, marks', i)
  {
  }

  // ---------------------------------------------------------------- bodies in bulk

  lemma BodyByte(p: Parser, ch: Byte)
    requires Inv(p, false) && IsBulk(p.state) && (p.state.BodyIdentity? ==> p.contentLength > 1)
    ensures Step(p, ch) == Running(p.(contentLength := p.contentLength - 1,
                                      state := if p.contentLength == 1 then ChunkDataAlmostDone else p.state),
                                        [Data(BODY, ch)])
  {
    var q := p.(contentLength := p.contentLength - 1, state := if p.contentLength == 1 then ChunkDataAlmostDone
      else p.state);
    assert SwitchBody(p) == Plain(q);
    assert [Data(BODY, ch)] + [] + [] == [Data(BODY, ch)];
  }

  lemma LastBodyByte(p: Parser, ch: Byte)
    requires Inv(p, false) && p.state.BodyIdentity? && p.contentLength == 1
    ensures var q := p.(contentLength := 0, state := MessageDone);
            Step(p, ch) == Running(q.(state := NewMessage(q)), [Data(BODY, ch), MessageComplete])
  {
    var q := p.(contentLength := 0, state := MessageDone);
    assert SwitchBody(p) == Go(q, None, None, [], true);
    assert Switch(q, ch) == Go(q.(state := NewMessage(q)), None, None, [MessageComplete], false);
    assert [] + [MessageComplete] + [] == [MessageComplete];
    assert Passes(q, ch) == Running(q.(state := NewMessage(q)), [MessageComplete]);
    assert [Data(BODY, ch)] + [] + [MessageComplete] == [Data(BODY, ch), MessageComplete];
    assert Passes(p, ch) == Running(q.(state := NewMessage(q)), [Data(BODY, ch), MessageComplete]);
  }

  lemma NotesLast(e0: seq<Event>, p: seq<Event>, c: seq<Event>, e1: seq<Event>, p': seq<Event>, notes: seq<Event>)
    requires e1 + p' == e0 + p + c && (notes == [] || p' == [])
    ensures (e1 + notes) + p' == e0 + p + (c + notes)
  {
    if notes == [] {
      assert e1 + [] == e1 && c + [] == c;
    } else {
      assert e1 + [] == e1 && (e1 + notes) + [] == e1 + notes;
      assert (e0 + p + c) + notes == e0 + p + (c + notes);
    }
  }

  lemma Assoc(a: seq<Event>, b: seq<Event>, c: seq<Event>)
    ensures (a + b) + c == a + (b + c) && b + [] == b
  {
  }

  lemma BodyTold(e: seq<Event>, t: seq<Event>, notes: seq<Event>)
    ensures ((e + t) + notes) + [] == e + [] + (t + notes)
    ensures e + t == e + [] + (t + [])
  {
    assert e + [] == e && t + [] == t;
    assert ((e + t) + notes) + [] == (e + t) + notes;
  }

  lemma TaggedOneMore(kind: Kind, d: seq<Byte>)
    requires d != []
    ensures Tagged(kind, d) == Tagged(kind, d[..|d| - 1]) + [Data(kind, d[|d| - 1])]
  {
  }

  /** What a bulk state makes of n bytes of body: the parser and, apart from the bytes, the events. */
  function AfterBulk(p: Parser, n: nat): (Parser, seq<Event>)
    requires n <= p.contentLength
  {
    var q := p.(contentLength := p.contentLength - n);
    if q.contentLength != 0 then (q, [])
    else if p.state.ChunkData? then (q.(state := ChunkDataAlmostDone), [])
    else (q.(state := NewMessage(q)), [MessageComplete])
  }

  /** The same for the machine that takes one byte at a time. */
  lemma {:induction false} RunBulk(p: Parser, d: seq<Byte>)
    requires Inv(p, false) && IsBulk(p.state) && |d| < p.contentLength
    ensures Run(p, d) == Running(p.(contentLength := p.contentLength - |d|), Tagged(BODY, d))
    decreases |d|
  {
    hide Step;
    if d == [] {
      assert p.(contentLength := p.contentLength - |d|) == p;
    } else {
      var d0, ch := d[..|d| - 1], d[|d| - 1];
      RunBulk(p, d0);
      BodyByte(p.(contentLength := p.contentLength - |d0|), ch);
      TaggedOneMore(BODY, d);
    }
  }

  /** The last byte of a chunk, or of a body with a known length, which also completes the message. */
  lemma RunWholeBody(p: Parser, d: seq<Byte>)
    requires Inv(p, false) && IsBulk(p.state) && |d| == p.contentLength
    ensures var (q, notes) := AfterBulk(p, |d|);
            Run(p, d) == Running(q, Tagged(BODY, d) + notes)
  {
    var d0, ch := d[..|d| - 1], d[|d| - 1];
    RunBulk(p, d0);
    TaggedOneMore(BODY, d);
    var p0 := p.(contentLength := p.contentLength - |d0|);
    if p.state.ChunkData? {
      BodyByte(p0, ch);
      assert Tagged(BODY, d) + [] == Tagged(BODY, d);
    } else {
      LastBodyByte(p0, ch);
      assert p0.(contentLength := 0, state := MessageDone).(state := NewMessage(p0)) == AfterBulk(p, |d|).0;
      assert Tagged(BODY, d0) + [Data(BODY, ch), MessageComplete] == Tagged(BODY, d) + [MessageComplete];
    }
  }

  // ---------------------------------------------------------------- the rest of a run

  /** A run over the rest of a piece, cut after some bytes. */
  lemma RunOn(p: Parser, data: seq<Byte>, i: nat, j: nat)
    requires i <= j <= |data|
    ensures Run(p, data[i..]) == match Run(p, data[i..j])
                                 case Running(q, events) => Prepend(events, Run(q, data[j..]))
                                 case o => o
  {
    RunConcat(p, data[i..j], data[j..]);
    assert data[i..] == data[i..j] + data[j..];
  }

  lemma RunOne(p: Parser, ch: Byte)
    ensures Run(p, [ch]) == Step(p, ch)
  {
    assert [ch][..0] == [];
    assert [] + Step(p, ch).events == Step(p, ch).events;
  }

  /** One turn of the main loop takes the bytes from i to j and gives the parser q and some events. */
  ghost predicate Turn(p: Parser, data: seq<Byte>, i: nat, j: nat, q: Parser, events: seq<Event>)
    requires i <= |data|
  {
    && i < j <= |data|
    && if IsBulk(p.state) then
         && j - i <= p.contentLength && (j - i == p.contentLength || j == |data|)
         && q == AfterBulk(p, j - i).0 && events == Tagged(BODY, data[i..j]) + AfterBulk(p, j - i).1
       else
         j == i + 1 && Step(p, data[i]) == Running(q, events)
  }

  /** A turn is a run of the machine over the same bytes. */
  lemma TurnRuns(p: Parser, data: seq<Byte>, i: nat, j: nat, q: Parser, events: seq<Event>)
    requires i < |data| && Inv(p, false) && Turn(p, data, i, j, q, events)
    ensures Run(p, data[i..j]) == Running(q, events) && Inv(q, false)
  {
    if !IsBulk(p.state) {
      assert data[i..j] == [data[i]];
      RunOne(p, data[i]);
    } else if j - i == p.contentLength {
      RunWholeBody(p, data[i..j]);
    } else {
      RunBulk(p, data[i..j]);
      assert Tagged(BODY, data[i..j]) + [] == Tagged(BODY, data[i..j]);
    }
    RunKeepsInv(p, data[i..j]);
  }

  /** The machine has taken the bytes in front of position i. */
  ghost predicate Ran(start: Parser, data: seq<Byte>, i: nat, p: Parser, events: seq<Event>) {
    i <= |data| && Run(start, data[..i]) == Running(p, events)
  }

  lemma WholePiece(start: Parser, data: seq<Byte>, p: Parser, events: seq<Event>)
    requires Ran(start, data, |data|, p, events)
    ensures Run(start, data) == Running(p, events)
  {
    assert data[..|data|] == data;
  }

  /** The run over what has been taken, with one more turn. */
  lemma RunSoFar(start: Parser, p: Parser, data: seq<Byte>, i: nat, j: nat, q: Parser, events: seq<Event>,
      more: seq<Event>)
    requires i <= j <= |data| && Ran(start, data, i, p, events) && Run(p, data[i..j]) == Running(q, more)
    ensures Ran(start, data, j, q, events + more)
  {
    hide Run;
    assert data[..i] + data[i..j] == data[..j];
    RunJoined(start, data[..i], data[i..j], data[..j], p, events);
  }

  lemma RunJoined(start: Parser, a: seq<Byte>, b: seq<Byte>, all: seq<Byte>, p: Parser, events: seq<Event>)
    requires a + b == all && Run(start, a) == Running(p, events)
    ensures Run(start, all) == Prepend(events, Run(p, b))
  {
    RunConcat(start, a, b);
  }

  /** A byte that stops the machine. */
  lemma StopsAt(p: Parser, data: seq<Byte>, i: nat)
    requires i < |data| && !Step(p, data[i]).Running?
    ensures Run(p, data[i..]) == Step(p, data[i])
  {
    assert data[i..i + 1] == [data[i]];
    RunOne(p, data[i]);
    RunOn(p, data, i, i + 1);
  }

  /** The machine takes the bytes in front of position i, and not the one there. */
  predicate StopsBehind(p: Parser, data: seq<Byte>, i: int) {
    0 <= i < |data| && Run(p, data[..i]).Running? && !Step(Run(p, data[..i]).p, data[i]).Running?
  }

  /** The run over a piece ends with an error at the byte behind those consumed, or with an upgrade at the last
      of them. */
  predicate Refused(p: Parser, data: seq<Byte>, errno: Option<Errno>, consumed: nat) {
    && EndsWith(Run(p, data), errno)
    && StopsBehind(p, data, if errno == None then consumed - 1 else consumed)
  }

  lemma StopsHere(start: Parser, p: Parser, data: seq<Byte>, i: nat, events: seq<Event>)
    requires i < |data| && !Step(p, data[i]).Running? && Ran(start, data, i, p, events)
    ensures Run(start, data) == Prepend(events, Step(p, data[i])) && StopsBehind(start, data, i)
  {
    var rest := data[i..];
    assert Run(p, rest) == Step(p, data[i]) by {
      StopsAt(p, data, i);
    }
    assert data[..i] + rest == data;
    RunJoined(start, data[..i], rest, data, p, events);
  }

  // ---------------------------------------------------------------- what a refused piece leaves untold

  /** The machine takes the byte at position j as data of this kind. */
  predicate IsDataOf(p: Parser, data: seq<Byte>, j: nat, kind: Kind)
    requires j < |data|
  {
    var before, after := Run(p, data[..j]), Run(p, data[..j + 1]);
    && before.Running? && after.Running?
    && if kind == BODY then IsBulk(before.p.state) else Owner(after.p.state) == Some(kind)
  }

  /** How far back from position i the bytes of this piece are data of this kind. */
  function Since(p: Parser, data: seq<Byte>, i: nat, kind: Kind): (j: nat)
    requires i <= |data|
    ensures j <= i
  {
    if i > 0 && IsDataOf(p, data, i - 1, kind) then Since(p, data, i - 1, kind) else i
  }

  /** When the machine stops inside some data, the bytes of that data which this piece holds. */
  function Untold(p: Parser, data: seq<Byte>, i: nat): seq<Event>
    requires i <= |data|
  {
    var o := Run(p, data);
    if o.Halted? && o.open.Some? then Tagged(o.open.value, data[Since(p, data, i, o.open.value)..i]) else []
  }

  /** Everything up to the byte that was refused has been told but for these bytes. */
  predicate ToldAllBut(told: seq<Event>, before: seq<Event>, p: Parser, data: seq<Byte>, i: int) {
    0 <= i <= |data| && told + Untold(p, data, i) == before + Run(p, data).events
  }

  /** Each mark stands where its data begins in this piece, and data without a mark has not begun. */
  ghost predicate MarksStand(start: Parser, data: seq<Byte>, marks: Marks, i: nat, s: State) {
    && i <= |data|
    && (forall k :: k in marks ==> marks[k] == Since(start, data, i, k))
    && (forall k: Kind :: k != BODY && k !in marks ==> Since(start, data, i, k) == i)
    && (BODY !in marks && (IsBulk(s) || s.ChunkDataAlmostDone?) && i < |data| ==> Since(start, data, i, BODY) == i)
  }

  lemma MarkedByte(start: Parser, data: seq<Byte>, marks: Marks, marks': Marks, i: nat, s: Parser, q: Parser,
      events: seq<Event>, events': seq<Event>)
    requires i < |data| && !IsBulk(s.state) && MarksStand(start, data, marks, i, s.state)
    requires Ran(start, data, i, s, events) && Ran(start, data, i + 1, q, events')
    requires Kept(marks, marks', i) && Fits(marks', q.state, i + 1, |data|) && BODY !in marks'
    ensures MarksStand(start, data, marks', i + 1, q.state)
  {
    hide Run, Step, Owner, IsBulk;
    forall k: Kind | k != BODY
      ensures Since(start, data, i + 1, k) == if k in marks' then marks'[k] else i + 1
    {
      assert IsDataOf(start, data, i, k) <==> k in marks';
    }
    assert !IsDataOf(start, data, i, BODY);
  }

  lemma BulkInside(start: Parser, data: seq<Byte>, i: nat, j: nat, s: Parser, events: seq<Event>)
    requires i <= j <= |data| && Ran(start, data, i, s, events) && Inv(s, false) && IsBulk(s.state)
    requires j - i < s.contentLength
    ensures Run(start, data[..j]).Running? && IsBulk(Run(start, data[..j]).p.state)
  {
    RunBulk(s, data[i..j]);
    RunSoFar(start, s, data, i, j, s.(contentLength := s.contentLength - |data[i..j]|), events,
             Tagged(BODY, data[i..j]));
  }

  lemma {:induction false} SinceBulk(start: Parser, data: seq<Byte>, i: nat, j: nat, s: Parser, events: seq<Event>)
    requires i <= j <= |data| && Ran(start, data, i, s, events) && Inv(s, false) && IsBulk(s.state)
    requires j - i <= s.contentLength && Run(start, data[..j]).Running?
    ensures Since(start, data, j, BODY) == Since(start, data, i, BODY)
    decreases j
  {
    hide Run, Ran, Inv;
    if i < j {
      BulkInside(start, data, i, j - 1, s, events);
      assert IsDataOf(start, data, j - 1, BODY);
      SinceBulk(start, data, i, j - 1, s, events);
    }
  }

  lemma MarkedBody(start: Parser, data: seq<Byte>, marks: Marks, marks': Marks, i: nat, end: nat, s: Parser, q: Parser,
      events: seq<Event>, events': seq<Event>)
    requires i < end <= |data| && IsBulk(s.state) && Inv(s, false) && MarksStand(start, data, marks, i, s.state)
    requires marks.Keys == {} && end - i <= s.contentLength && q == AfterBulk(s, end - i).0
    requires Ran(start, data, i, s, events) && Ran(start, data, end, q, events')
    requires BodyMarked(marks', i, q.state)
    ensures MarksStand(start, data, marks', end, q.state)
  {
    hide Run, Inv;
    SinceBulk(start, data, i, end, s, events);
    forall k: Kind | k != BODY
      ensures Since(start, data, end, k) == end
    {
      assert !IsDataOf(start, data, end - 1, k);
    }
  }

  /** The mark behind a bulk skip. */
  ghost predicate BodyMarked(marks: Marks, i: nat, s: State) {
    marks == map[BODY := i] || (marks.Keys == {} && !IsBulk(s) && !s.ChunkDataAlmostDone?)
  }

  /** The bytes that a stopped parser withholds are those left untold. */
  lemma WithheldIsUntold(start: Parser, data: seq<Byte>, marks: Marks, i: nat, s: State, o: Outcome)
    requires i < |data| && Fits(marks, s, i, |data|) && MarksStand(start, data, marks, i, s)
    requires o.Halted? && o.open.Some? ==> o.open == Open(s)
    requires Run(start, data).Halted? == o.Halted?
    requires o.Halted? ==> Run(start, data).open == o.open
    ensures Withheld(o, marks, data, i) == Untold(start, data, i)
  {
    if o.Halted? && o.open.Some? {
      var k := o.open.value;
      if k in marks {
        PendingSingle(marks, k, data, i);
      } else {
        PendingNone(marks, data, i);
      }
    }
  }

  /** Where no data is open in a header, nothing is owed. */
  lemma NothingOpen(marks: Marks, s: State, data: seq<Byte>, i: nat)
    requires i < |data| && IsHeaderState(s) && Fits(marks, s, i, |data|)
    ensures Open(s) == None ==> Pending(marks, data, i) == []
  {
    if Open(s) == None {
      PendingNone(marks, data, i);
    }
  }

  /** Bulk bytes that are still to come leave no mark, and there are some. */
  lemma BulkStarts(marks: Marks, p: Parser, i: nat, n: nat)
    requires i < n && IsBulk(p.state) && Inv(p, false) && Fits(marks, p.state, i, n)
    ensures marks.Keys == {} && 0 < p.contentLength
  {
  }

  /** A turn that ends well carries the run and the marks on. */
  lemma GoesOn(start: Parser, data: seq<Byte>, marks: Marks, marks': Marks, i: nat, end: nat, s: Parser, q: Parser,
      events: seq<Event>, more: seq<Event>)
    requires i < |data| && Inv(s, false) && Fits(marks, s.state, i, |data|)
    requires Ran(start, data, i, s, events) && MarksStand(start, data, marks, i, s.state)
    requires Turn(s, data, i, end, q, more) && Fits(marks', q.state, end, |data|)
    requires if IsBulk(s.state) then BodyMarked(marks', i, q.state) else Kept(marks, marks', i) && BODY !in marks'
    ensures i < end <= |data| && Inv(q, false)
    ensures Ran(start, data, end, q, events + more) && MarksStand(start, data, marks', end, q.state)
  {
    hide Run, Step, Inv, Ran, MarksStand;
    TurnRuns(s, data, i, end, q, more);
    RunSoFar(start, s, data, i, end, q, events, more);
    if IsBulk(s.state) {
      MarkedBody(start, data, marks, marks', i, end, s, q, events, events + more);
    } else {
      MarkedByte(start, data, marks, marks', i, s, q, events, events + more);
    }
  }

  /** A byte that ends the run ends that over the whole piece, and the data that the marks still stood for is the
      untold data. */
  lemma Stops(start: Parser, data: seq<Byte>, marks: Marks, i: nat, s: Parser, events: seq<Event>, before: seq<Event>,
      told: seq<Event>, errno: Option<Errno>)
    requires i < |data| && Fits(marks, s.state, i, |data|)
    requires Ran(start, data, i, s, events) && MarksStand(start, data, marks, i, s.state)
    requires var o := Step(s, data[i]); EndsWith(o, errno) && (o.Halted? && o.open.Some? ==> o.open == Open(s.state))
    requires var o := Step(s, data[i]); told + Withheld(o, marks, data, i) == before + events + o.events
    ensures Refused(start, data, errno, if errno == None then i + 1 else i)
    ensures ToldAllBut(told, before, start, data, i)
  {
    hide Run, Step, Fits, Ran, MarksStand, Pending, StopsBehind;
    var o := Step(s, data[i]);
    StopsHere(start, s, data, i, events);
    WithheldIsUntold(start, data, marks, i, s.state, o);
    Assoc(before, events, o.events);
  }

  // ---------------------------------------------------------------- the parser object

  class RequestParser {
    var st: Parser
    var errno: Option<Errno>
    var calls: seq<Callback>   // the callbacks run so far; they all return 0

    constructor ()
      ensures st == Init() && errno == None && calls == []
    {
      st, errno, calls := Init(), None, [];
    }

    method CallData(kind: Kind, marks: Marks, data: seq<Byte>, i: nat) returns (marks': Marks)
      requires i <= |data| && forall k :: k in marks ==> marks[k] <= i
      modifies `calls
      ensures marks' == marks - {kind}
      ensures calls == if kind in marks then old(calls) + [DataCall(kind, data[marks[kind]..i])] else old(calls)
    {
      if kind in marks {
        calls := calls + [DataCall(kind, data[marks[kind]..i])];
      }
      marks' := marks - {kind};
    }

    method CallNotify(notes: seq<Event>)
      modifies `calls
      ensures Expand(calls) == Expand(old(calls)) + notes
    {
      var k := 0;
      while k < |notes|
        invariant k <= |notes| && Expand(calls) == Expand(old(calls)) + notes[..k]
      {
        ExpandOneMore(calls, Notify(notes[k]));
        calls := calls + [Notify(notes[k])];
        assert notes[..k + 1] == notes[..k] + [notes[k]];
        k := k + 1;
      }
      assert notes[..k] == notes;
    }

    /** The mark and the callbacks of one pass through the switch. */
    method RunPass(pass: Pass, marks: Marks, data: seq<Byte>, i: nat) returns (marks': Marks)
      requires i <= |data| && pass.Go? && forall k :: k in marks ==> marks[k] <= i
      modifies `st, `calls
      ensures st == pass.p && marks' == Apply(pass, marks, old(calls), data, i).0
      ensures Expand(calls) == Expand(Apply(pass, marks, old(calls), data, i).1) + pass.notes
    {
      marks' := marks;
      if pass.mark.Some? && pass.mark.value !in marks' {
        marks' := marks'[pass.mark.value := i];
      }
      if pass.flush.Some? {
        marks' := CallData(pass.flush.value, marks', data, i);
      }
      CallNotify(pass.notes);
      st := pass.p;
    }

    /** The parser has stopped with this outcome of a byte that it took in state `s`. */
    predicate StoppedAt(o: Outcome, s: State)
      reads this
    {
      EndsWith(o, errno) && (o.Halted? && o.open.Some? ==> o.open == Open(s))
    }

    /** Where a byte at position i leaves the parser that took it in state `s`, if `o` is what the machine makes of it:
        with `before` told or pending, `events` are added, or the parser has stopped. */
    ghost predicate Took(o: Outcome, ok: bool, events: seq<Event>, before: seq<Event>, marks: Marks, marks': Marks,
        data: seq<Byte>, i: nat, s: State)
      requires i < |data|
      reads this
    {
      if ok then
        && o == Running(st, events) && errno == None && Fits(marks', st.state, i + 1, |data|)
        && Expand(calls) + Pending(marks', data, i + 1) == before + events
        && Kept(marks, marks', i) && BODY !in marks'
      else
        StoppedAt(o, s) && Expand(calls) + Withheld(o, marks, data, i) == before + o.events
    }

    /** The switch for one byte outside the bulk states, with the jumps back to it for the same byte. */
    method TakeByte(ch: Byte, marks: Marks, data: seq<Byte>, i: nat)
        returns (ok: bool, marks': Marks, ghost events: seq<Event>)
      requires i < |data| && data[i] == ch && errno == None && !IsBulk(st.state) && Fits(marks, st.state, i, |data|)
      modifies this
      ensures Took(Passes(old(st), ch), ok, events, Expand(old(calls)) + Pending(marks, data, i),
                   marks, marks', data, i, old(st).state)
      decreases Rank(st.state), 1
    {
      hide Switch, Passes, Expand, Pending, Fits;
      ghost var s := st;
      var pass := Switch(st, ch);
      if pass.Go? {
        ok, marks', events := GoOn(pass, ch, marks, data, i);
      } else {
        PassesStopped(s, ch);
        StopsOutside(s, ch, marks, data, i);
        Assoc(Expand(calls), Pending(marks, data, i), [MessageComplete]);
        ok, marks', events := false, marks, [];
        if pass.Stop? {
          errno := Some(pass.errno);
        } else {
          st := pass.p;
          CallNotify([MessageComplete]);
        }
      }
    }

    /** A pass that does not stop. */
    method GoOn(pass: Pass, ch: Byte, marks: Marks, data: seq<Byte>, i: nat)
        returns (ok: bool, marks': Marks, ghost events: seq<Event>)
      requires i < |data| && data[i] == ch && errno == None && !IsBulk(st.state) && Fits(marks, st.state, i, |data|)
      requires pass == Switch(st, ch) && pass.Go?
      modifies this
      ensures Took(Passes(old(st), ch), ok, events, Expand(old(calls)) + Pending(marks, data, i),
                   marks, marks', data, i, old(st).state)
      decreases Rank(st.state), 0
    {
      hide Switch, Passes, Expand, Pending, Carried;
      ghost var s, before := st, Expand(calls) + Pending(marks, data, i);
      AgainGoesDown(s, ch);
      PassesOn(s, ch);
      PassDelivers(s, ch, marks, calls, data, i);
      events := Carried(s.state, ch) + pass.notes;
      ghost var e1 := Expand(Apply(pass, marks, calls, data, i).1);
      marks' := RunPass(pass, marks, data, i);
      NotesLast(Expand(old(calls)), Pending(marks, data, i), Carried(s.state, ch), e1,
                Pending(marks', data, if pass.again then i else i + 1), pass.notes);
      ok := true;
      Assoc([], events, []);
      if pass.again {
        ghost var more;
        ok, marks', more := TakeByte(ch, marks', data, i);
        ghost var o := Passes(pass.p, ch);
        Assoc(before, events, o.events);
        if ok {
          if Owner(s.state).Some? {
            AgainLeaves(s, ch);
          }
          KeptAgain(marks, marks', i, |data|, s.state, st.state);
        }
        events := events + more;
      }
    }

    /** The bulk states: as many body bytes as are left in the message or in the piece.  Returns the position of
        the last byte taken. */
    method TakeBody(marks: Marks, data: seq<Byte>, i: nat) returns (end: nat, marks': Marks, ghost events: seq<Event>)
      requires i < |data| && IsBulk(st.state) && 0 < st.contentLength && marks.Keys == {}
      modifies `st, `calls
      ensures Turn(old(st), data, i, end, st, events) && Fits(marks', st.state, end, |data|)
      ensures BodyMarked(marks', i, st.state)
      ensures Expand(calls) + Pending(marks', data, end) == Expand(old(calls)) + Pending(marks, data, i) + events
    {
      PendingNone(marks, data, i);
      var left := |data| - i;
      var toRead := if st.contentLength < left then st.contentLength else left;
      end := i + toRead;
      marks' := map[BODY := i];
      PendingSingle(marks', BODY, data, end);
      st := st.(contentLength := st.contentLength - toRead);
      ghost var notes := AfterBulk(old(st), toRead).1;
      if st.contentLength == 0 {
        marks' := EndBody(marks', data, i, end);
      }
      events := Tagged(BODY, data[i..end]) + notes;
      BodyTold(Expand(old(calls)), Tagged(BODY, data[i..end]), notes);
    }

    /** The end of a chunk, whose data callback waits for the next byte, or of a body with a known length, whose
        data callback includes the byte at hand and is followed by the end of the message. */
    method EndBody(marks: Marks, data: seq<Byte>, i: nat, end: nat) returns (marks': Marks)
      requires i <= end <= |data| && marks == map[BODY := i] && st.contentLength == 0 && IsBulk(st.state)
      modifies `st, `calls
      ensures st == AfterBulk(old(st), 0).0 && Fits(marks', st.state, end, |data|) && BodyMarked(marks', i, st.state)
      ensures AfterBulk(old(st), 0).1 == [] ==> marks' == marks && calls == old(calls)
      ensures AfterBulk(old(st), 0).1 != [] ==>
                Pending(marks', data, end) == []
                && Expand(calls) == (Expand(old(calls)) + Tagged(BODY, data[i..end])) + AfterBulk(old(st), 0).1
    {
      marks' := marks;
      if st.state.ChunkData? {
        st := st.(state := ChunkDataAlmostDone);
      } else {
        marks' := CompleteBody(marks', data, i, end);
        st := st.(state := NewMessage(st));
      }
    }

    /** The data callback for a whole body and the one for the end of the message. */
    method CompleteBody(marks: Marks, data: seq<Byte>, i: nat, end: nat) returns (marks': Marks)
      requires i <= end <= |data| && marks == map[BODY := i]
      modifies `calls
      ensures marks'.Keys == {} && Pending(marks', data, end) == []
      ensures Expand(calls) == (Expand(old(calls)) + Tagged(BODY, data[i..end])) + [MessageComplete]
    {
      ExpandOneMore(calls, DataCall(BODY, data[i..end]));
      marks' := CallData(BODY, marks, data, end);
      PendingNone(marks', data, end);
      CallNotify([MessageComplete]);
    }

    /** One turn of the main loop: the header limit, then the switch. */
    method TakeSome(marks: Marks, data: seq<Byte>, i: nat)
        returns (ok: bool, end: nat, marks': Marks, ghost events: seq<Event>)
      requires i < |data| && errno == None && Inv(st, false) && Fits(marks, st.state, i, |data|)
      modifies this
      ensures ok ==> Turn(old(st), data, i, end, st, events) && errno == None && Fits(marks', st.state, end, |data|)
      ensures ok ==> Expand(calls) + Pending(marks', data, end) == Expand(old(calls)) + Pending(marks, data, i) + events
      ensures ok ==> if IsBulk(old(st).state) then BodyMarked(marks', i, st.state)
                     else Kept(marks, marks', i) && BODY !in marks'
      ensures !ok ==>
          var o := Step(old(st), data[i]);
          && end == i + 1 && StoppedAt(o, old(st).state)
          && Expand(calls) + Withheld(o, marks, data, i) == Expand(old(calls)) + Pending(marks, data, i) + o.events
    {
      hide Passes, Inv, Fits, Expand, Pending, Kept, BodyMarked;
      if IsBulk(st.state) {
        BulkStarts(marks, st, i, |data|);
        end, marks', events := TakeBody(marks, data, i);
        return true, end, marks', events;
      }
      end := i + 1;
      if IsHeaderState(st.state) {
        st := st.(nread := st.nread + 1);
        if st.nread > MAX_HEADER_SIZE {
          NothingOpen(marks, old(st).state, data, i);
          errno := Some(HEADER_OVERFLOW);
          return false, end, marks, [];
        }
      }
      ok, marks', events := TakeByte(data[i], marks, data, i);
    }

    /** `http_parser_execute`; `consumed` is what it returns: the length of the piece, the index of the byte that
        was refused, or that behind the one which ends an upgrade. */
    method Execute(data: seq<Byte>) returns (ok: bool, consumed: nat)
      requires Inv(st, false)
      modifies this
      ensures old(errno).Some? ==> !ok && consumed == 0 && st == old(st) && errno == old(errno) && calls == old(calls)
      ensures old(errno).None? && data == [] ==>
                && ok == (old(st).state.Dead? || old(st).state.StartReq?) && consumed == (if ok then 0 else 1)
                && st == old(st) && calls == old(calls)
      ensures old(errno).None? && data != [] && ok ==>
                && errno == None && Inv(st, false) && Run(old(st), data).Running? && st == Run(old(st), data).p
                && Expand(calls) == Expand(old(calls)) + Run(old(st), data).events && consumed == |data|
      ensures old(errno).None? && data != [] && !ok ==>
                && Refused(old(st), data, errno, consumed)
                && ToldAllBut(Expand(calls), Expand(old(calls)), old(st), data,
                              if errno == None then consumed - 1 else consumed)
    {
      if errno.Some? {
        return false, 0;
      }
      if data == [] {
        ok := st.state.Dead? || st.state.StartReq?;
        consumed := 0;
        if !ok {
          errno, consumed := Some(INVALID_EOF_STATE), 1;
        }
        return;
      }
      ghost var start, events := st, [];
      ok, consumed, events := ExecuteSome(data);
      if ok {
        WholePiece(start, data, st, events);
      }
    }

    /** The predicates about the whole run are compared with `true` so that the verifier takes each as one fact. */
    method ExecuteSome(data: seq<Byte>) returns (ok: bool, consumed: nat, ghost events: seq<Event>)
      requires Inv(st, false) && errno == None && data != []
      modifies this
      ensures ok ==>
          errno == None && Inv(st, false) && consumed == |data| && Ran(old(st), data, |data|, st, events) == true
      ensures ok ==> Expand(calls) == Expand(old(calls)) + events
      ensures !ok ==>
                && Refused(old(st), data, errno, consumed) == true
                && ToldAllBut(Expand(calls), Expand(old(calls)), old(st), data,
                              if errno == None then consumed - 1 else consumed) == true
    {
      hide Inv, Fits, Ran, MarksStand, Refused, ToldAllBut, Expand, Pending, Owner;
      ghost var start, before := st, Expand(calls);
      events := [];
      var marks: Marks := map[];
      if Owner(st.state).Some? {
        marks := map[Owner(st.state).value := 0];
      }
      StartOfPiece(st, marks, data, before);
      var i := 0;
      while i < |data|
        invariant i <= |data| && errno == None && Inv(st, false) && Fits(marks, st.state, i, |data|)
        invariant Ran(start, data, i, st, events) == true && MarksStand(start, data, marks, i, st.state) == true
        invariant Expand(calls) + Pending(marks, data, i) == before + events
        decreases |data| - i
      {
        ok, i, marks, events := NextTurn(start, marks, data, i, events, before);
        if !ok {
          consumed := if errno == None then i else i - 1;
          return;
        }
      }
      AtMostOneMark(marks, st.state, |data|, |data|);
      assert |marks| <= 1;
      CallLeftovers(marks, data);
      return true, |data|, events;
    }

    /** One turn of the main loop, as a part of the run over the whole piece. */
    method NextTurn(ghost start: Parser, marks: Marks, data: seq<Byte>, i: nat, ghost events: seq<Event>,
        ghost before: seq<Event>)
      returns (ok: bool, end: nat, marks': Marks, ghost events': seq<Event>)
      requires i < |data| && errno == None && Inv(st, false) && Fits(marks, st.state, i, |data|)
      requires Ran(start, data, i, st, events) == true && MarksStand(start, data, marks, i, st.state) == true
      requires Expand(calls) + Pending(marks, data, i) == before + events
      modifies this
      ensures ok ==> i < end <= |data| && errno == None && Inv(st, false) && Fits(marks', st.state, end, |data|)
      ensures ok ==> Ran(start, data, end, st, events') == true
      ensures ok ==> MarksStand(start, data, marks', end, st.state) == true
      ensures ok ==> Expand(calls) + Pending(marks', data, end) == before + events'
      ensures !ok ==> end == i + 1 && Refused(start, data, errno, if errno == None then end else i) == true
      ensures !ok ==> ToldAllBut(Expand(calls), before, start, data, i) == true
    {
      hide Run, Step, Inv, Fits, Ran, MarksStand, Turn, Refused, ToldAllBut, Expand, Pending, BodyMarked, Kept;
      ghost var s, more := st, [];
      ok, end, marks', more := TakeSome(marks, data, i);
      events' := events + more;
      if ok {
        GoesOn(start, data, marks, marks', i, end, s, st, events, more);
        Assoc(before, events, more);
      } else {
        Stops(start, data, marks, i, s, events, before, Expand(calls), errno);
      }
    }

    /** The callbacks for marks that are left at the end of a piece: there is at most one. */
    method CallLeftovers(marks: Marks, data: seq<Byte>)
      requires Fits(marks, st.state, |data|, |data|)
      modifies `calls
      ensures Expand(calls) == Expand(old(calls)) + Pending(marks, data, |data|)
    {
      Leftovers(marks, st.state, data, calls);
      var ms := marks;
      ms := CallData(FIELD, ms, data, |data|);
      ms := CallData(VALUE, ms, data, |data|);
      ms := CallData(URL, ms, data, |data|);
      ms := CallData(BODY, ms, data, |data|);
    }

    /** Feeding a stream in pieces. */
    method Feed(pieces: seq<seq<Byte>>) returns (ok: bool)
      requires Inv(st, false) && errno == None && forall k :: 0 <= k < |pieces| ==> pieces[k] != []
      modifies this
      ensures ok == Run(old(st), Concat(pieces)).Running?
      ensures !ok ==> EndsWith(Run(old(st), Concat(pieces)), errno)
      ensures !ok ==>
          var o := Run(old(st), Concat(pieces));
          exists untold :: Inside(untold, o) && Expand(calls) + untold == Expand(old(calls)) + o.events
      ensures ok ==> st == Run(old(st), Concat(pieces)).p
                     && Expand(calls) == Expand(old(calls)) + Run(old(st), Concat(pieces)).events
    {
      ghost var outcome, before := Run(st, Concat(pieces)), Expand(calls);
      ghost var events: seq<Event> := [];
      EmptyPrepend(outcome);
      assert pieces[0..] == pieces;
      var k := 0;
      while k < |pieces|
        invariant k <= |pieces| && Inv(st, false) && errno == None
        invariant outcome == Prepend(events, Run(st, Concat(pieces[k..])))
        invariant Expand(calls) == before + events
      {
        ConcatFrom(pieces, k);
        RunConcat(st, pieces[k], Concat(pieces[k + 1..]));
        ghost var s, events0 := st, events;
        var consumed;
        ok, consumed := Execute(pieces[k]);
        if !ok {
          ghost var i := if errno == None then consumed - 1 else consumed;
          UntoldIsInside(s, pieces[k], i);
          Assoc(before, events0, Run(s, pieces[k]).events);
          assert Inside(Untold(s, pieces[k], i), outcome);
          return;
        }
        ghost var more := Run(s, pieces[k]).events;
        PrependTwice(events0, more, Run(st, Concat(pieces[k + 1..])));
        Assoc(before, events0, more);
        events := events0 + more;
        k := k + 1;
      }
      return true;
    }
  }

  /** Nothing but data of the kind the machine was inside when it stopped. */
  predicate Inside(untold: seq<Event>, o: Outcome) {
    if o.Halted? && o.open.Some? then
      forall k :: 0 <= k < |untold| ==> untold[k].Data? && untold[k].kind == o.open.value
    else
      untold == []
  }

  lemma UntoldIsInside(p: Parser, data: seq<Byte>, i: nat)
    requires i <= |data|
    ensures Inside(Untold(p, data, i), Run(p, data))
  {
  }

  lemma ConcatFrom(pieces: seq<seq<Byte>>, k: nat)
    requires k < |pieces|
    ensures Concat(pieces[k..]) == pieces[k] + Concat(pieces[k + 1..])
  {
    assert pieces[k..][1..] == pieces[k + 1..];
  }

  lemma EmptyPrepend(o: Outcome)
    ensures Prepend([], o) == o
  {
    assert [] + o.events == o.events;
  }

  lemma StartOfPiece(p: Parser, marks: Marks, data: seq<Byte>, before: seq<Event>)
    requires marks == if Owner(p.state).Some? then map[Owner(p.state).value := 0] else map[]
    ensures before + Pending(marks, data, 0) == before + []
    ensures MarksStand(p, data, marks, 0, p.state) && Fits(marks, p.state, 0, |data|) && Ran(p, data, 0, p, [])
  {
    if Owner(p.state).Some? {
      PendingSingle(marks, Owner(p.state).value, data, 0);
    }
  }

  lemma AtMostOneMark(marks: Marks, s: State, i: nat, n: nat)
    requires Fits(marks, s, i, n)
    ensures |marks| <= 1
  {
    assert |marks| == |marks.Keys|;
  }

  /** At most one mark is left at the end of a piece, and its callback delivers what is pending. */
  lemma Leftovers(marks: Marks, s: State, data: seq<Byte>, calls: seq<Callback>)
    requires Fits(marks, s, |data|, |data|)
    ensures marks.Keys == {} || marks.Keys == {FIELD} || marks.Keys == {VALUE} || marks.Keys == {URL}
        || marks.Keys == {BODY}
    ensures marks.Keys == {} ==> Expand(calls) == Expand(calls) + Pending(marks, data, |data|)
    ensures forall k :: marks.Keys == {k} ==>
              k in marks && Expand(calls + [DataCall(k, data[marks[k]..|data|])]) == Expand(calls)
                + Pending(marks, data, |data|)
  {
    forall k | marks.Keys == {k}
      ensures k in marks && Expand(calls + [DataCall(k, data[marks[k]..|data|])]) == Expand(calls)
          + Pending(marks, data, |data|)
    {
      assert k in marks;
      PendingSingle(marks, k, data, |data|);
      ExpandOneMore(calls, DataCall(k, data[marks[k]..|data|]));
    }
  }
}
