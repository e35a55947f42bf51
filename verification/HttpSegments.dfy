/** Segmentation: how the stream is cut into buffers does not matter. */
module HttpSegments {
  import opened Wrappers
  import opened HttpTypes
  import opened HttpSwitch
  import opened HttpRun
  import opened HttpInvariant

  function Concat(pieces: seq<string>): string {
    if pieces == [] then [] else pieces[0] + Concat(pieces[1..])
  }

  /** A caller's loop: hand over one buffer after the other, until one of the calls
      reports an upgrade.  After an error every further call returns 0. */
  function Feed(p: Parser, log: Log, pieces: seq<string>, noBody: bool): (r: Run)
    decreases pieces
  {
    if pieces == [] then Run(p, log, 0, false)
    else
      var first := Exec(p, log, pieces[0], noBody);
      if first.p.upgrade then first
      else
        var rest := Feed(first.p, first.log, pieces[1..], noBody);
        rest.(count := first.count + rest.count)
  }

  /** Of the byte-wise reference: for every cutting of an input into non-empty buffers, the fields,
      the log, the total of the counts and the stop at an upgrade are those of one call on the whole
      input.  What this means for the parser itself is stated by `HttpFeeding.FeedPieces`. */
  lemma {:induction false} SegmentationInvariance(p: Parser, log: Log, pieces: seq<string>, noBody: bool)
    requires p.errno == OK ==> Good(p, 0) && !p.upgrade
    requires pieces != [] && forall s :: s in pieces ==> s != []
    requires !p.upgrade
    ensures Feed(p, log, pieces, noBody) == Exec(p, log, Concat(pieces), noBody)
    decreases pieces
  {
    hide RunFrom, Good;
    var first := Exec(p, log, pieces[0], noBody);
    var tail := pieces[1..];
    if p.errno != OK {
      FeedStopped(p, log, pieces, noBody);
    } else {
      ExecKeepsGood(p, log, pieces[0], noBody);
      RunUpgrade(p, log, pieces[0], 0, noBody);
      RunConcat(p, log, pieces[0], Concat(tail), 0, noBody);
      assert pieces[0] in pieces && pieces[0] + Concat(tail) != [];
      assert Exec(p, log, Concat(pieces), noBody) == RunFrom(p, log, pieces[0] + Concat(tail), 0, noBody);
      if tail == [] {
        assert pieces[0] + Concat(tail) == pieces[0];
        assert Feed(first.p, first.log, tail, noBody) == Run(first.p, first.log, 0, false);
      } else if !first.p.upgrade {
        if first.p.errno == OK {
          assert Concat(tail) != [] by { assert tail[0] in pieces; assert tail[0] != []; }
        } else {
          FeedStopped(first.p, first.log, tail, noBody);
        }
        forall s | s in tail ensures s != [] { assert s in pieces; }
        SegmentationInvariance(first.p, first.log, tail, noBody);
      }
    }
  }

  /** Two cuttings of the same input cannot be told apart. */
  lemma SegmentationsAgree(p: Parser, log: Log, one: seq<string>, other: seq<string>, noBody: bool)
    requires Good(p, 0) && !p.upgrade
    requires one != [] && forall s :: s in one ==> s != []
    requires other != [] && forall s :: s in other ==> s != []
    requires Concat(one) == Concat(other)
    ensures Feed(p, log, one, noBody) == Feed(p, log, other, noBody)
  {
    SegmentationInvariance(p, log, one, noBody);
    SegmentationInvariance(p, log, other, noBody);
  }

  lemma {:induction false} FeedStopped(p: Parser, log: Log, pieces: seq<string>, noBody: bool)
    requires p.errno != OK && !p.upgrade
    ensures Feed(p, log, pieces, noBody) == Run(p, log, 0, false)
    decreases pieces
  {
    if pieces == [] {
    } else {
      FeedStopped(p, log, pieces[1..], noBody);
    }
  }

  /** A run over `a + b` is a run over `a`, continued over `b` unless it stopped. */
  lemma {:induction false} RunConcat(p: Parser, log: Log, a: string, b: string, i: nat, noBody: bool)
    requires i <= |a| && Good(p, 0)
    ensures
      var r := RunFrom(p, log, a, i, noBody);
      var whole := RunFrom(p, log, a + b, i, noBody);
      if r.halted || r.p.errno != OK then whole == r
      else
        && r.count == |a|
        && (var rest := RunFrom(r.p, r.log, b, 0, noBody);
            whole == rest.(count := |a| + rest.count))
    decreases |a| - i
  {
    hide StepByte, AddAll, Good;
    if i == |a| {
      GoodIsOk(p);
      RunShift(p, log, a, b, 0, noBody);
    } else {
      var s := StepByte(p, a[i], noBody);
      assert (a + b)[i] == a[i];
      StepKeepsGood(p, a[i], noBody);
      if s.ctl == Advance {
        RunConcat(s.p, AddAll(log, s.events), a, b, i + 1, noBody);
      }
    }
  }

  lemma GoodIsOk(p: Parser)
    requires Good(p, 0)
    ensures p.errno == OK
  {}

  lemma {:induction false} RunShift(p: Parser, log: Log, a: string, b: string, j: nat, noBody: bool)
    requires j <= |b|
    ensures
      var rest := RunFrom(p, log, b, j, noBody);
      RunFrom(p, log, a + b, |a| + j, noBody) == rest.(count := |a| + rest.count)
    decreases |b| - j
  {
    hide StepByte, AddAll;
    if j < |b| {
      var s := StepByte(p, b[j], noBody);
      assert (a + b)[|a| + j] == b[j];
      if s.ctl == Advance {
        RunShift(s.p, AddAll(log, s.events), a, b, j + 1, noBody);
      }
    }
  }

  // ---- upgrade -----------------------------------------------------------

  /** A parser without an upgrade leaves the loop early exactly when it meets one, so the
      `upgrade` field is a sound test for the caller. */
  lemma {:induction false} RunUpgrade(p: Parser, log: Log, data: string, i: nat, noBody: bool)
    requires i <= |data| && !p.upgrade
    ensures var r := RunFrom(p, log, data, i, noBody); r.halted <==> r.p.upgrade
    decreases |data| - i
  {
    hide StepByte, AddAll;
    if i < |data| {
      var s := StepByte(p, data[i], noBody);
      StepUpgrade(p, data[i], noBody);
      if s.ctl == Advance {
        RunUpgrade(s.p, AddAll(log, s.events), data, i + 1, noBody);
      }
    }
  }

  lemma StepUpgrade(p: Parser, ch: char, noBody: bool)
    requires !p.upgrade
    ensures var s := StepByte(p, ch, noBody); s.ctl == Exit <==> s.p.upgrade
  {
    hide Turns, Owner, Notes;
    TurnsUpgrade(Count(p), ch, 1, noBody);
  }

  lemma {:induction false} TurnsUpgrade(p: Parser, ch: char, avail: nat, noBody: bool)
    requires avail >= 1 && !p.upgrade
    ensures var t := Turns(p, ch, avail, noBody); t.ctl == Exit <==> t.p.upgrade
    decreases Rank(p.state)
  {
    hide Switch, Turns;
    var t := Switch(p, ch, avail, noBody);
    SwitchUpgrade(p, ch, avail, noBody);
    if t.ctl == Reexecute {
      TurnsAgain(p, ch, avail, noBody);
      if t.p.upgrade {
        SwitchUpgrade(t.p, ch, avail - t.skip, noBody);
        TurnsOnce(t.p, ch, avail - t.skip, noBody);
      } else {
        TurnsUpgrade(t.p, ch, avail - t.skip, noBody);
      }
    } else {
      TurnsOnce(p, ch, avail, noBody);
    }
  }

  lemma SwitchUpgrade(p: Parser, ch: char, avail: nat, noBody: bool)
    requires avail >= 1
    ensures
      var t := Switch(p, ch, avail, noBody);
      && (t.ctl == Exit ==> p.state == HeadersDone && p.upgrade && t.p.upgrade)
      && (t.p.upgrade != p.upgrade ==> t.ctl == Reexecute && t.p.state == HeadersDone && ch == LF)
      && (p.state == HeadersDone && p.upgrade && ch == LF ==> t.ctl == Exit && t.p.upgrade)
      && (t.p.upgrade && t.ctl == Reexecute && !p.upgrade ==> t.p.state == HeadersDone && ch == LF)
  {
    hide SwitchStart, SwitchResponseLine, SwitchMethod, SwitchUrl, SwitchRequestVersion;
    hide SwitchField, SwitchValue, SwitchChunk, ActsFit, Rank;
  }
}
