/** The parser object of http_parser.cc and its one entry point. */
module HttpParsing {
  import opened Wrappers
  import opened HttpTypes
  import opened HttpSwitch
  import opened HttpRun
  import opened HttpInvariant
  import opened HttpExecute

  class HttpParser {
    var parser: Parser
    /** Every callback made so far, in order. */
    var calls: seq<Event>
    /** on_headers_complete answers 1: the message has no body. */
    const noBody: bool

    ghost predicate Valid()
      reads this
    {
      && parser.errno != Assertion
      && (parser.errno == OK ==> Good(parser, 0) && Collecting(parser, Merged(calls)))
    }

    constructor (kind: Kind, noBody: bool)
      ensures Valid() && parser == Init(kind) && calls == [] && this.noBody == noBody
    {
      parser := Init(kind);
      calls := [];
      this.noBody := noBody;
    }

    /** http_parser_execute on one buffer: the fields, the count returned and the merged
        callbacks are those of the byte-wise reference; on an error the string that was being
        collected may be missing. */
    method Execute(data: string) returns (n: nat)
      requires Valid()
      modifies this`parser, this`calls
      ensures Valid()
      ensures old(calls) <= calls && (old(parser.errno) != OK ==> calls == old(calls))
      ensures
        var r := Exec(old(parser), Merged(old(calls)), data, noBody);
        && parser == r.p && n == r.count
        && (parser.errno == OK ==> Merged(calls) == r.log)
        && (parser.errno != OK ==> LostTail(Merged(calls), r.log))
    {
      hide RunFrom, Good, Collecting, Merged, AtEof;
      if parser.errno != OK { return 0; }
      ExecKeepsGood(parser, Merged(calls), data, noBody);
      if |data| == 0 {
        n := ExecuteEof();
      } else {
        n := ExecuteBytes(data);
      }
    }

    /** The loop of http_parser_execute over a non-empty buffer. */
    method ExecuteBytes(data: string) returns (n: nat)
      requires data != [] && Good(parser, 0) && parser.errno == OK && Collecting(parser, Merged(calls))
      modifies this`parser, this`calls
      ensures parser.errno == OK ==> Good(parser, 0) && Collecting(parser, Merged(calls))
      ensures parser.errno != Assertion
      ensures old(calls) <= calls
      ensures
        var r := RunFrom(old(parser), Merged(old(calls)), data, 0, noBody);
        && parser == r.p && n == r.count
        && (parser.errno == OK ==> Merged(calls) == r.log)
        && (parser.errno != OK ==> LostTail(Merged(calls), r.log))
    {
      hide *;
      ghost var want := RunFrom(parser, Merged(calls), data, 0, noBody);
      var marks := InitialMarks(parser.state);
      InitialView(parser, Merged(calls), data);
      var i := 0;
      while i < |data|
        invariant i <= |data| && Good(parser, 0) && parser.errno == OK
        invariant MarksFit(marks, parser.state, i)
        invariant RunFrom(parser, View(Merged(calls), marks, data, i), data, i, noBody) == want
        invariant old(calls) <= calls
        decreases |data| - i
      {
        CountedRun(parser, View(Merged(calls), marks, data, i), data, i, noBody);
        if ParsingHeader(parser.state) {
          parser := parser.(nread := parser.nread + 1);
          if parser.nread > MAX_HEADER_SIZE {
            ViewLostTail(Merged(calls), marks, parser.state, data, i);
            parser := parser.(errno := HeaderOverflow);
            return i;
          }
        }
        var left, returned;
        n, left, returned := DispatchByte(data, i, marks, want);
        if returned {
          return n;
        }
        i, marks := n, left;
      }
      RunAtEnd(parser, View(Merged(calls), marks, data, i), data, noBody);
      AtMostOneMark(marks, parser.state, i);
      assert LiveMarks(marks) <= 1;
      MergedConcat(calls, Leftover(marks, data, i));
      FinalCollecting(parser, Merged(calls), marks, data);
      FinalView(Merged(calls), marks, data);
      calls := calls + Leftover(marks, data, i);
      return |data|;
    }

    /** From `reexecute_byte` to the end of the loop body: the switch, repeated in the
        state it chose for as long as it jumps back, and the macros it ran. */
    method DispatchByte(data: string, start: nat, marks0: Marks, ghost want: Run)
      returns (i: nat, marks: Marks, returned: bool)
      requires start < |data| && Good(parser, 1) && MarksFit(marks0, parser.state, start)
      requires RunMid(parser, View(Merged(calls), marks0, data, start), data, start, noBody) == want
      modifies this`parser, this`calls
      ensures old(calls) <= calls
      ensures returned ==>
        && parser == want.p && i == want.count
        && (parser.errno == OK ==>
            Good(parser, 0) && Collecting(parser, Merged(calls)) && Merged(calls) == want.log)
        && (parser.errno != OK ==> parser.errno != Assertion && LostTail(Merged(calls), want.log))
      ensures !returned ==>
        && start < i <= |data| && Good(parser, 0) && parser.errno == OK && MarksFit(marks, parser.state, i)
        && RunFrom(parser, View(Merged(calls), marks, data, i), data, i, noBody) == want
    {
      hide *;
      var ch := data[start];
      i, marks := start, marks0;
      var again := true;
      while again
        invariant start <= i < |data|
        invariant again ==> ch == data[i] || parser.state == MessageDone
        invariant if again then Good(parser, 1) else Good(parser, 0) && parser.errno == OK
        invariant MarksFit(marks, parser.state, if again then i else i + 1)
        invariant again ==> RunMid(parser, View(Merged(calls), marks, data, i), data, i, noBody) == want
        invariant !again ==>
          RunFrom(parser, View(Merged(calls), marks, data, i + 1), data, i + 1, noBody) == want
        invariant old(calls) <= calls
        decreases if again then 1 + Rank(parser.state) else 0
      {
        var t := Switch(parser, ch, |data| - i, noBody);
        OneTurn(parser, calls, marks, data, i, ch, noBody);
        if t.ctl == Error {
          parser := t.p;
          return i, marks, true;
        }
        var (made, left) := Perform(marks, t.acts, data, i, i + t.skip);
        parser, calls, marks, i := t.p, calls + made, left, i + t.skip;
        if t.ctl == Exit {
          return i + 1, marks, true;
        }
        again := t.ctl == Reexecute;
      }
      return i + 1, marks, false;
    }

    /** A call with no bytes means end of input. */
    method ExecuteEof() returns (n: nat)
      requires Valid() && parser.errno == OK
      modifies this`parser, this`calls
      ensures Valid() && old(calls) <= calls
      ensures
        var r := AtEof(old(parser), Merged(old(calls)));
        parser == r.p && n == r.count && Merged(calls) == r.log
    {
      match parser.state
      case BodyIdentityEof =>
        MergedConcat(calls, [MessageComplete]);
        AddAllOne(Merged(calls), MessageComplete);
        calls := calls + [MessageComplete];
        return 0;
      case Dead | StartReqOrRes | StartRes | StartReq =>
        return 0;
      case _ =>
        parser := parser.(errno := InvalidEofState);
        return 1;
    }
  }

  /** One turn of the loop in `DispatchByte`: the invariant, the marks and what is left to do. */
  lemma OneTurn(p: Parser, calls: seq<Event>, m: Marks, data: string, i: nat, ch: char, noBody: bool)
    requires i < |data| && Good(p, 1) && MarksFit(m, p.state, i)
    requires ch == data[i] || p.state == MessageDone
    ensures
      var t := Switch(p, ch, |data| - i, noBody);
      var j := i + t.skip;
      var (made, left) := Perform(m, t.acts, data, i, j);
      var run := RunMid(p, View(Merged(calls), m, data, i), data, i, noBody);
      var after := Merged(calls + made);
      match t.ctl
      case Error =>
        && run.p == t.p && run.count == i && t.p.errno != OK && t.p.errno != Assertion
        && LostTail(Merged(calls), run.log)
      case Reexecute =>
        && Good(t.p, 1) && MarksFit(left, t.p.state, j)
        && run == RunMid(t.p, View(after, left, data, j), data, j, noBody)
        && (t.p.state == MessageDone || j == i) && p.state != MessageDone
        && Rank(t.p.state) < Rank(p.state)
      case Exit =>
        && t.p.errno == OK && Good(t.p, 0) && Collecting(t.p, after)
        && run == Run(t.p, after, j + 1, true)
      case Advance =>
        && t.p.errno == OK && Good(t.p, 0) && MarksFit(left, t.p.state, j + 1)
        && run == RunFrom(t.p, View(after, left, data, j + 1), data, j + 1, noBody)
  {
    hide RunFrom, RunMid, View, Perform, Switch, AddAll, Good, MarksFit, Merged, LostTail, LiveKind;
    var t := Switch(p, ch, |data| - i, noBody);
    TurnKeeps(p, ch, |data| - i, noBody);
    TurnRefines(p, Merged(calls), m, data, i, ch, noBody);
    MergedConcat(calls, Perform(m, t.acts, data, i, i + t.skip).0);
    if t.ctl == Error {
      ViewLostTail(Merged(calls), m, p.state, data, i);
    }
  }

  /** The facts about one turn that the loop needs, in one place. */
  lemma TurnKeeps(p: Parser, ch: char, avail: nat, noBody: bool)
    requires avail >= 1 && Good(p, 1)
    ensures p.errno == OK && p.contentLength <= NO_LENGTH
    ensures
      var t := Switch(p, ch, avail, noBody);
      && (t.ctl == Error ==> t.p.errno != OK && t.p.errno != Assertion)
      && (t.ctl != Error ==> t.p.errno == OK && Good(t.p, 0))
      && (t.ctl == Reexecute ==> Good(t.p, 1))
      && (t.ctl == Exit ==> LiveKind(t.p.state).None?)
  {
    hide Switch;
    SwitchKeepsGood(p, ch, avail, noBody);
    var t := Switch(p, ch, avail, noBody);
    if t.ctl == Exit {
      ExitOutsideBody(p, ch, avail, noBody);
      SwitchSame(p, ch, ch, avail, noBody);
      ExitMarks(p, ch, noBody);
    }
  }

  lemma ExitOutsideBody(p: Parser, ch: char, avail: nat, noBody: bool)
    requires avail >= 1 && Switch(p, ch, avail, noBody).ctl == Exit
    ensures !InBody(p.state)
  {
    hide Switch;
    if InBody(p.state) {
      SwitchInBody(p, ch, avail, noBody);
    }
  }

  lemma RunAtEnd(p: Parser, view: Log, data: string, noBody: bool)
    ensures RunFrom(p, view, data, |data|, noBody) == Run(p, view, |data|, false)
  {}

  lemma FinalView(log: Log, m: Marks, data: string)
    ensures View(log, m, data, |data|) == AddAll(log, Leftover(m, data, |data|))
  {
    hide AddAll, Leftover;
  }

  lemma CountedRun(p: Parser, view: Log, data: string, i: nat, noBody: bool)
    requires i < |data| && Good(p, 0)
    ensures
      var run := RunFrom(p, view, data, i, noBody);
      var q := if ParsingHeader(p.state) then p.(nread := p.nread + 1) else p;
      if ParsingHeader(p.state) && q.nread > MAX_HEADER_SIZE then
        run == Run(q.(errno := HeaderOverflow), view, i, false)
      else Good(q, 1) && run == RunMid(q, view, data, i, noBody)
  {
    hide MidStep, MethodName, NameState, ValueState;
  }
}
