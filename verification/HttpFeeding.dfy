/** A caller's loop over the parser: one call per buffer that arrives. */
module HttpFeeding {
  import opened Wrappers
  import opened HttpTypes
  import opened HttpSwitch
  import opened HttpRun
  import opened HttpInvariant
  import opened HttpExecute
  import opened HttpSegments
  import opened HttpParsing

  /** However an input is cut into buffers, feeding them to the parser, until one of the calls
      reports an upgrade, leaves the fields, the total count and, without an error, the merged
      callbacks that one call on the whole input would leave; after an error the callbacks may
      lack the string that was being collected. */
  method FeedPieces(h: HttpParser, pieces: seq<string>) returns (total: nat)
    requires h.Valid() && !h.parser.upgrade && pieces != [] && forall s :: s in pieces ==> s != []
    modifies h
    ensures h.Valid()
    ensures
      var r := Exec(old(h.parser), Merged(old(h.calls)), Concat(pieces), h.noBody);
      && h.parser == r.p && total == r.count
      && (h.parser.errno == OK ==> Merged(h.calls) == r.log)
      && (h.parser.errno != OK ==> LostTail(Merged(h.calls), r.log))
  {
    hide Exec, Feed, Merged, LostTail;
    ValidGood(h);
    SegmentationInvariance(h.parser, Merged(h.calls), pieces, h.noBody);
    ghost var log := Merged(h.calls);
    ghost var want := Feed(h.parser, log, pieces, h.noBody);
    LostNothing(log);
    total := 0;
    var i := 0;
    while i < |pieces| && !h.parser.upgrade
      invariant i <= |pieces| && h.Valid()
      invariant h.parser.upgrade ==> want.p == h.parser && want.log == log && want.count == total
      invariant !h.parser.upgrade ==> want == Later(total, Feed(h.parser, log, pieces[i..], h.noBody))
      invariant if h.parser.errno == OK then Merged(h.calls) == log else LostTail(Merged(h.calls), log)
    {
      FeedStep(h.parser, log, pieces[i..], h.noBody);
      assert pieces[i..][1..] == pieces[i + 1..] && pieces[i..][0] == pieces[i];
      ghost var r := Exec(h.parser, log, pieces[i], h.noBody);
      if h.parser.errno != OK { StoppedExec(h.parser, log, pieces[i], h.noBody); }
      var n := h.Execute(pieces[i]);
      log := r.log;
      total := total + n;
      i := i + 1;
    }
    if !h.parser.upgrade {
      assert pieces[i..] == [];
      FeedNothing(h.parser, log, h.noBody);
    }
  }

  lemma ValidGood(h: HttpParser)
    requires h.Valid()
    ensures h.parser.errno == OK ==> Good(h.parser, 0)
  {}

  function Later(total: nat, r: Run): Run { r.(count := total + r.count) }

  lemma LostNothing(log: Log)
    ensures LostTail(log, log)
  {}

  lemma FeedStep(p: Parser, log: Log, pieces: seq<string>, noBody: bool)
    requires pieces != []
    ensures
      var first := Exec(p, log, pieces[0], noBody);
      Feed(p, log, pieces, noBody) ==
        if first.p.upgrade then first else Later(first.count, Feed(first.p, first.log, pieces[1..], noBody))
  {
    hide Exec;
  }

  lemma FeedNothing(p: Parser, log: Log, noBody: bool)
    ensures Feed(p, log, [], noBody) == Run(p, log, 0, false)
  {}

  lemma StoppedExec(p: Parser, log: Log, data: string, noBody: bool)
    requires p.errno != OK
    ensures forall l :: Exec(p, l, data, noBody) == Run(p, l, 0, false)
  {}
}
