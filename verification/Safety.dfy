/**
 The vocabulary of watermark safety, for one flush step at a time: which records are settled, where a
 watermark comes from, and what one step of flushItems does to both.
 */
module Safety {
  import opened Common
  import opened FlushProtocol

  /** The sink acknowledged the record, a dead-letter file holds it, or its dead-letter write failed. */
  predicate Resolved(p: Pipe, x: Pending) {
    x in p.acked || x in p.dead || x in p.lost
  }

  ghost predicate Settled(batches: seq<seq<Pending>>, p: Pipe) {
    forall x :: x in Flatten(batches) ==> Resolved(p, x)
  }

  /** The watermark of `path` is the offset of accepted record `i`, and all records up to it are resolved. */
  ghost predicate Source(accepted: seq<Pending>, p: Pipe, path: string, i: int) {
    && 0 <= i < |accepted|
    && path in p.watermarks && accepted[i].path == path && accepted[i].offset == p.watermarks[path]
    && forall j :: 0 <= j <= i ==> Resolved(p, accepted[j])
  }

  ghost predicate Sourced(accepted: seq<Pending>, p: Pipe, wm: map<string, int>) {
    forall path :: path in p.watermarks ==>
      (path in wm && wm[path] == p.watermarks[path]) || exists i :: Source(accepted, p, path, i)
  }

  /** Offsets increase along each path and start beyond the watermark the run resumed from. */
  ghost predicate Increasing(accepted: seq<Pending>, wm: map<string, int>) {
    && (forall i, j :: 0 <= i < j < |accepted| && accepted[i].path == accepted[j].path ==>
          accepted[i].offset < accepted[j].offset)
    && (forall i :: 0 <= i < |accepted| && accepted[i].path in wm ==> wm[accepted[i].path] < accepted[i].offset)
  }

  predicate Unresolved(pc: FlushPc) {
    pc == Publishing || pc == Failed
  }

  /** A flush under way works on the newest batch, and everything before it is settled. */
  ghost predicate FlightOk(handed: seq<seq<Pending>>, p: Pipe, f: Flight) {
    f.pc.Returned? ||
    (&& |handed| > 0 && f.batch == handed[|handed| - 1] && f.batch != []
     && (f.pc.Advancing? ==> f.pc.i <= |f.batch|)
     && if Unresolved(f.pc) then Settled(handed[..|handed| - 1], p) else Settled(handed, p))
  }

  /** The logs only grow. */
  predicate Grows(p: Pipe, q: Pipe) {
    p.acked <= q.acked && p.dead <= q.dead && p.lost <= q.lost
  }

  lemma GrowsResolved(p: Pipe, q: Pipe)
    requires Grows(p, q)
    ensures forall x :: Resolved(p, x) ==> Resolved(q, x)
  {
  }

  lemma SourcedGrows(accepted: seq<Pending>, p: Pipe, longer: seq<Pending>, q: Pipe, wm: map<string, int>)
    requires Sourced(accepted, p, wm) && accepted <= longer && Grows(p, q) && p.watermarks == q.watermarks
    ensures Sourced(longer, q, wm)
  {
    GrowsResolved(p, q);
    forall path | path in q.watermarks && !(path in wm && wm[path] == q.watermarks[path])
      ensures exists i :: Source(longer, q, path, i)
    {
      var i :| Source(accepted, p, path, i);
      assert Source(longer, q, path, i);
    }
  }

  /** Moving a watermark to a record of the newest batch when all batches are settled. */
  lemma AdvanceSourced(accepted: seq<Pending>, handed: seq<seq<Pending>>, p: Pipe, k: nat, wm: map<string, int>)
    requires |handed| > 0 && k < |handed[|handed| - 1]|
    requires Flatten(handed) <= accepted && Settled(handed, p) && Sourced(accepted, p, wm)
    ensures var x := handed[|handed| - 1][k];
            Sourced(accepted, p.(watermarks := p.watermarks[x.path := x.offset]), wm)
  {
    var x := handed[|handed| - 1][k];
    var q := p.(watermarks := p.watermarks[x.path := x.offset]);
    var at := |Flatten(handed[..|handed| - 1])| + k;
    assert accepted[at] == Flatten(handed)[at] == x;
    forall j | 0 <= j <= at ensures Resolved(q, accepted[j]) {
      assert accepted[j] == Flatten(handed)[j];
    }
    assert Source(accepted, q, x.path, at);
    forall path | path in q.watermarks && path != x.path && !(path in wm && wm[path] == q.watermarks[path])
      ensures exists i :: Source(accepted, q, path, i)
    {
      var i :| Source(accepted, p, path, i);
      assert Source(accepted, q, path, i);
    }
  }

  lemma SettledSnoc(handed: seq<seq<Pending>>, p: Pipe)
    requires |handed| > 0 && Settled(handed[..|handed| - 1], p)
    requires forall x :: x in handed[|handed| - 1] ==> Resolved(p, x)
    ensures Settled(handed, p)
  {
  }

  /** What every step of flushItems keeps; in dead-letter mode a batch past its write is settled for good. */
  ghost predicate StepSafe(cfg: Config, accepted: seq<Pending>, handed: seq<seq<Pending>>, p: Pipe, q: Pipe,
                           g: Flight, wm: map<string, int>, sourced: bool)
  {
    && (sourced ==> Sourced(accepted, q, wm)) && FlightOk(handed, q, g) && Grows(p, q)
    && (cfg.mode == DeadLetter && !Unresolved(g.pc) ==> Settled(handed, q))
  }

  lemma ResolveStepLogs(cfg: Config, p: Pipe, f: Flight, c: Choice)
    requires Unresolved(f.pc)
    ensures var (q, g) := FlushItemsStep(cfg, p, f, c);
            && Grows(p, q) && q.watermarks == p.watermarks && g.batch == f.batch
            && (Unresolved(g.pc) || g.pc.Returned? || (g.pc.Advancing? && g.pc.i == 0))
            && (!Unresolved(g.pc) && (cfg.mode == DeadLetter || !g.pc.Returned?) ==>
                  forall x :: x in f.batch ==> Resolved(q, x))
  {
  }

  /** Once the watermarks are set, neither they nor the logs change. */
  lemma EndStepLogs(cfg: Config, p: Pipe, f: Flight, c: Choice)
    requires !Unresolved(f.pc) && !f.pc.Returned? && (f.pc.Advancing? ==> f.pc.i >= |f.batch|)
    ensures var (q, g) := FlushItemsStep(cfg, p, f, c);
            && q.acked == p.acked && q.dead == p.dead && q.lost == p.lost && q.watermarks == p.watermarks
            && g.batch == f.batch && !Unresolved(g.pc) && !g.pc.Advancing?
  {
  }

  lemma ResolveStepSafe(cfg: Config, accepted: seq<Pending>, handed: seq<seq<Pending>>, p: Pipe, f: Flight,
                        c: Choice, wm: map<string, int>, sourced: bool)
    requires (sourced ==> Sourced(accepted, p, wm)) && Unresolved(f.pc) && FlightOk(handed, p, f)
    ensures var (q, g) := FlushItemsStep(cfg, p, f, c); StepSafe(cfg, accepted, handed, p, q, g, wm, sourced)
  {
    ResolveStepLogs(cfg, p, f, c);
    hide FlushItemsStep, Source, Sourced;
    var (q, g) := FlushItemsStep(cfg, p, f, c);
    GrowsResolved(p, q);
    if sourced {
      SourcedGrows(accepted, p, accepted, q, wm);
    }
    if !Unresolved(g.pc) && (cfg.mode == DeadLetter || !g.pc.Returned?) {
      SettledSnoc(handed, q);
    }
  }

  lemma AdvanceStepSafe(cfg: Config, accepted: seq<Pending>, handed: seq<seq<Pending>>, p: Pipe, f: Flight,
                        c: Choice, wm: map<string, int>, sourced: bool)
    requires Flatten(handed) <= accepted && (sourced ==> Sourced(accepted, p, wm))
    requires f.pc.Advancing? && f.pc.i < |f.batch| && FlightOk(handed, p, f)
    ensures var (q, g) := FlushItemsStep(cfg, p, f, c); StepSafe(cfg, accepted, handed, p, q, g, wm, sourced)
  {
    hide Sourced;
    var (q, g) := FlushItemsStep(cfg, p, f, c);
    var moved := p.(watermarks := p.watermarks[f.batch[f.pc.i].path := f.batch[f.pc.i].offset]);
    if sourced {
      AdvanceSourced(accepted, handed, p, f.pc.i, wm);
      SourcedGrows(accepted, moved, accepted, q, wm);
    }
  }

  lemma EndStepSafe(cfg: Config, accepted: seq<Pending>, handed: seq<seq<Pending>>, p: Pipe, f: Flight,
                    c: Choice, wm: map<string, int>, sourced: bool)
    requires (sourced ==> Sourced(accepted, p, wm)) && FlightOk(handed, p, f)
    requires !Unresolved(f.pc) && !f.pc.Returned? && (f.pc.Advancing? ==> f.pc.i >= |f.batch|)
    ensures var (q, g) := FlushItemsStep(cfg, p, f, c); StepSafe(cfg, accepted, handed, p, q, g, wm, sourced)
  {
    EndStepLogs(cfg, p, f, c);
    hide Sourced, FlushItemsStep;
    if sourced {
      SourcedGrows(accepted, p, accepted, FlushItemsStep(cfg, p, f, c).0, wm);
    }
  }

  /** One step of flushItems keeps safety, whoever runs the flush; `sourced` says whether watermarks are at issue. */
  lemma FlushItemsStepSafe(cfg: Config, accepted: seq<Pending>, handed: seq<seq<Pending>>, p: Pipe, f: Flight,
                           c: Choice, wm: map<string, int>, sourced: bool)
    requires Flatten(handed) <= accepted && (sourced ==> Sourced(accepted, p, wm))
    requires !f.pc.Returned? && FlightOk(handed, p, f)
    ensures var (q, g) := FlushItemsStep(cfg, p, f, c); StepSafe(cfg, accepted, handed, p, q, g, wm, sourced)
  {
    hide Sourced, FlightOk, StepSafe, FlushItemsStep;
    if Unresolved(f.pc) {
      ResolveStepSafe(cfg, accepted, handed, p, f, c, wm, sourced);
    } else if f.pc.Advancing? && f.pc.i < |f.batch| {
      AdvanceStepSafe(cfg, accepted, handed, p, f, c, wm, sourced);
    } else {
      EndStepSafe(cfg, accepted, handed, p, f, c, wm, sourced);
    }
  }

  /** What a sourced watermark is worth: no unresolved accepted record is at or behind it. */
  lemma SourcedIsSafe(accepted: seq<Pending>, p: Pipe, wm: map<string, int>, j: nat)
    requires Sourced(accepted, p, wm) && Increasing(accepted, wm)
    requires j < |accepted| && !Resolved(p, accepted[j]) && accepted[j].path in p.watermarks
    ensures p.watermarks[accepted[j].path] < accepted[j].offset
  {
    var path := accepted[j].path;
    if !(path in wm && wm[path] == p.watermarks[path]) {
      var i :| Source(accepted, p, path, i);
      assert i < j;
    }
  }
}
