/** The reference semantics of the parser: one byte at a time, no marks, no jumps.

    A byte is delivered to the callback that owns it, at once.  Everything the
    mark-and-jump implementation in `HttpExecute` does is proved equal to this fold. */
module HttpRun {
  import opened Wrappers
  import opened HttpTypes
  import opened UrlChars
  import opened HttpSwitch

  /** The turns of one byte: the switch, again for every `goto reexecute_byte`. */
  function Turns(p: Parser, ch: char, avail: nat, noBody: bool): (t: Turn)
    requires avail >= 1
    ensures t.ctl != Reexecute && t.skip < avail
    decreases Rank(p.state)
  {
    var t := Switch(p, ch, avail, noBody);
    if t.ctl == Reexecute then
      var u := Turns(t.p, ch, avail - t.skip, noBody);
      Turn(u.p, t.acts + u.acts, u.ctl, t.skip + u.skip)
    else t
  }

  function Notes(acts: seq<Act>): seq<Event> {
    if acts == [] then []
    else (if acts[0].Notify? then [acts[0].event] else []) + Notes(acts[1..])
  }

  /** Who owns byte `ch`, read in `before` and leading to `after`. */
  function Owner(before: State, ch: char, after: State): seq<Event> {
    if InBody(before) then [Data(OnBody, [ch])]
    else if LiveKind(after).Some? then [Data(LiveKind(after).value, [ch])]
    else if before == HeaderValueStart && (ch == CR || ch == LF) then [Data(OnHeaderValue, [])]
    else []
  }

  function Count(p: Parser): Parser {
    if ParsingHeader(p.state) then p.(nread := p.nread + 1) else p
  }

  predicate Overflows(p: Parser) { ParsingHeader(p.state) && p.nread + 1 > MAX_HEADER_SIZE }

  datatype Step = Step(p: Parser, events: seq<Event>, ctl: Control)

  /** The part of a byte's processing after it has been counted. */
  function MidStep(p: Parser, ch: char, noBody: bool): (s: Step)
    ensures s.ctl != Reexecute
  {
    var t := Turns(p, ch, 1, noBody);
    Step(t.p, if t.ctl == Error then [] else Owner(p.state, ch, t.p.state) + Notes(t.acts), t.ctl)
  }

  function StepByte(p: Parser, ch: char, noBody: bool): (s: Step)
    ensures s.ctl != Reexecute
  {
    if Overflows(p) then Step(Count(p).(errno := HeaderOverflow), [], Error)
    else MidStep(Count(p), ch, noBody)
  }

  /** `halted`: the call returned at an upgrade, so the rest is another protocol. */
  datatype Run = Run(p: Parser, log: Log, count: nat, halted: bool)

  function RunFrom(p: Parser, log: Log, data: string, i: nat, noBody: bool): (r: Run)
    requires i <= |data|
    decreases |data| - i
  {
    if i == |data| then Run(p, log, i, false)
    else Continue(StepByte(p, data[i], noBody), log, data, i, noBody)
  }

  function Continue(s: Step, log: Log, data: string, i: nat, noBody: bool): (r: Run)
    requires i < |data| && s.ctl != Reexecute
    decreases |data| - i, 0
  {
    match s.ctl
    case Error => Run(s.p, log, i, false)
    case Exit => Run(s.p, AddAll(log, s.events), i + 1, true)
    case Advance => RunFrom(s.p, AddAll(log, s.events), data, i + 1, noBody)
  }

  function RunMid(p: Parser, log: Log, data: string, i: nat, noBody: bool): (r: Run)
    requires i < |data|
  {
    Continue(MidStep(p, data[i], noBody), log, data, i, noBody)
  }

  /** What one call of http_parser_execute has to do. */
  function Exec(p: Parser, log: Log, data: string, noBody: bool): (r: Run) {
    if p.errno != OK then Run(p, log, 0, false)
    else if data == [] then AtEof(p, log)
    else RunFrom(p, log, data, 0, noBody)
  }

  function AtEof(p: Parser, log: Log): Run {
    match p.state
    case BodyIdentityEof => Run(p, Add(log, MessageComplete), 0, false)
    case Dead | StartReqOrRes | StartRes | StartReq => Run(p, log, 0, false)
    case _ => Run(p.(errno := InvalidEofState), log, 1, false)
  }

  lemma TurnsAgain(p: Parser, ch: char, avail: nat, noBody: bool)
    requires avail >= 1 && Switch(p, ch, avail, noBody).ctl == Reexecute
    ensures
      var t := Switch(p, ch, avail, noBody);
      var u := Turns(t.p, ch, avail - t.skip, noBody);
      Turns(p, ch, avail, noBody) == Turn(u.p, t.acts + u.acts, u.ctl, t.skip + u.skip)
  {
    hide Switch;
  }

  lemma TurnsOnce(p: Parser, ch: char, avail: nat, noBody: bool)
    requires avail >= 1 && Switch(p, ch, avail, noBody).ctl != Reexecute
    ensures Turns(p, ch, avail, noBody) == Switch(p, ch, avail, noBody)
  {
    hide Switch;
  }

  /** Two steps that lead to the same parser and the same log lead to the same run. */
  lemma SameContinue(s: Step, s': Step, log: Log, log': Log, data: string, i: nat, noBody: bool)
    requires i < |data| && s.ctl == s'.ctl != Reexecute && s.p == s'.p
    requires if s.ctl == Error then log == log' else AddAll(log, s.events) == AddAll(log', s'.events)
    ensures Continue(s, log, data, i, noBody) == Continue(s', log', data, i, noBody)
  {
    hide AddAll, StepByte;
  }

  /** Outside headers nothing is counted. */
  lemma UncountedRun(p: Parser, log: Log, data: string, i: nat, noBody: bool)
    requires i < |data| && !ParsingHeader(p.state)
    ensures RunFrom(p, log, data, i, noBody) == RunMid(p, log, data, i, noBody)
  {
    hide MidStep, Continue;
  }
}
