/**
 * The annotation pass `_write_aaf_clip_notes` (server.py, lines 28-114): for
 * each top-level composition, walk its picture track, give the k-th clip of
 * the whole run the k-th event's VFX ID as its `_COMMENT` note, and return
 * the final value of the shared counter.
 */
module ClipNotes {
  import opened Wrappers
  import opened Notes
  import opened Aaf
  import opened Tracks
  import opened ClipNames
  import opened Matching

  /** The line reported for an annotated clip: its number, display name and VFX ID. */
  datatype ClipLine = ClipLine(clipNum: nat, name: string, vfxId: string)

  /**
   * `log` holds the lines reported for the first `n` clips of the run, in
   * order: line `k` names clip `k` by number (counted from 1) and display
   * name, with event `k`'s VFX ID.
   */
  predicate Reported(log: seq<ClipLine>, all: seq<Component>, events: seq<string>, n: nat)
    requires n <= |all| && n <= |events|
  {
    |log| == n && forall k {:trigger log[k]} :: 0 <= k < n ==> log[k] == ClipLine(k + 1, DisplayName(all[k].kind), events[k])
  }

  /**
   * Sorts one component (server.py, lines 52-81): Fillers, SourceClips
   * without a mob and unrecognised kinds are passed over; the others are
   * annotated, with the name the source reports for them.
   */
  method Classify(kind: Kind) returns (annotate: bool, name: string)
    ensures annotate == Annotatable(kind)
    ensures annotate ==> name == DisplayName(kind)
  {
    annotate, name := false, "";
    if kind.Filler? {
      return;
    }
    if kind.SourceClip? && kind.mob.Some? {
      annotate, name := true, kind.mob.value.name;
    } else if kind.Selector? {
      var sel := kind.selected;
      annotate := true;
      name := if sel.Some? && sel.value.ClipSegment? && sel.value.mob.Some? then sel.value.mob.value.name else "";
    } else if kind.OperationGroup? {
      annotate := true;
      name := ResolveGroupName(kind.inputs);
    }
  }

  /** The attribute lists of `a`, element by element. */
  ghost function AttributesOf(a: seq<Component>): (r: seq<Option<seq<TaggedValue>>>)
    reads a
    ensures |r| == |a| && forall k {:trigger r[k]} :: 0 <= k < |a| ==> r[k] == a[k].attributes
  {
    seq(|a|, k requires 0 <= k < |a| reads a => a[k].attributes)
  }

  /**
   * `after` holds the attribute lists `before` of the first `n` clips of the
   * run once the pass is over: clip `k` carries event `k`'s VFX ID as its
   * note when that event exists, and is as it was otherwise.
   */
  predicate NotesWritten(before: seq<Option<seq<TaggedValue>>>, after: seq<Option<seq<TaggedValue>>>, events: seq<string>, n: nat)
    requires n <= |before| && n <= |after|
  {
    forall k {:trigger after[k]} :: 0 <= k < n ==>
      after[k] == if k < |events| then Some(Upsert(before[k], events[k])) else before[k]
  }

  /** Every starting state has a final state. */
  lemma NotesWrittenExist(before: seq<Option<seq<TaggedValue>>>, events: seq<string>)
    ensures exists after :: |after| == |before| && NotesWritten(before, after, events, |before|)
  {
    var after := seq(|before|, k requires 0 <= k < |before| =>
      if k < |events| then Some(Upsert(before[k], events[k])) else before[k]);
    assert NotesWritten(before, after, events, |before|);
  }

  /** The first `n` entries taken from `after`, the others from `before`. */
  function Spliced(before: seq<Option<seq<TaggedValue>>>, after: seq<Option<seq<TaggedValue>>>, n: nat): (r: seq<Option<seq<TaggedValue>>>)
    requires |after| == |before|
    ensures |r| == |before|
    ensures forall k {:trigger r[k]} :: 0 <= k < |before| ==> r[k] == if k < n then after[k] else before[k]
  {
    seq(|before|, k requires 0 <= k < |before| => if k < n then after[k] else before[k])
  }

  /** Once the pass has reached every clip that has an event, the run is in its final state. */
  lemma {:induction false} SplicedDone(before: seq<Option<seq<TaggedValue>>>, after: seq<Option<seq<TaggedValue>>>, events: seq<string>)
    requires |after| == |before| && NotesWritten(before, after, events, |before|)
    ensures Spliced(before, after, Min(|before|, |events|)) == after
  {
    var r := Spliced(before, after, Min(|before|, |events|));
    forall k | 0 <= k < |before|
      ensures r[k] == after[k]
    {
      if k >= |events| {
        assert after[k] == before[k];
      }
    }
  }

  /**
   * Setting clip `done` to its final attributes, and changing no other
   * clip, extends the spliced state by one clip.
   */
  lemma {:induction false} SplicedStep(before: seq<Option<seq<TaggedValue>>>, after: seq<Option<seq<TaggedValue>>>, done: nat,
                    was: seq<Option<seq<TaggedValue>>>, now: seq<Option<seq<TaggedValue>>>)
    requires |after| == |before| && done < |before| && |now| == |before|
    requires was == Spliced(before, after, done) && now[done] == after[done]
    requires forall k :: 0 <= k < |now| && k != done ==> now[k] == was[k]
    ensures now == Spliced(before, after, done + 1)
  {
  }

  /**
   * Clip `done` of the run, `target`, gets event `done`'s VFX ID as its note
   * and its line in the report (server.py, lines 89-106); no other clip
   * changes.
   */
  method AnnotateClip(target: Component, clipNum: nat, name: string, vfxId: string, log0: seq<ClipLine>,
                      ghost all: seq<Component>, ghost before: seq<Option<seq<TaggedValue>>>,
                      ghost after: seq<Option<seq<TaggedValue>>>, ghost events: seq<string>, ghost done: nat)
    returns (log: seq<ClipLine>)
    requires Distinct(all) && |before| == |all| && |after| == |all| && done < |all| && done < |events|
    requires NotesWritten(before, after, events, |all|)
    requires all[done] == target && clipNum == done + 1 && name == DisplayName(target.kind) && vfxId == events[done]
    requires AttributesOf(all) == Spliced(before, after, done)
    requires Reported(log0, all, events, done)
    modifies target
    ensures AttributesOf(all) == Spliced(before, after, done + 1)
    ensures Reported(log, all, events, done + 1)
  {
    assert after[done] == Some(Upsert(before[done], vfxId));
    assert AttributesOf(all)[done] == before[done];
    ghost var was := AttributesOf(all);
    target.WriteNote(vfxId);
    forall k | 0 <= k < |all| && k != done
      ensures AttributesOf(all)[k] == was[k]
    {
      assert Apart(all, k, done);
    }
    SplicedStep(before, after, done, was, AttributesOf(all));
    log := log0 + [ClipLine(clipNum, name, vfxId)];
  }

  /**
   * Component `j` of a picture track (server.py, lines 52-106). The track's
   * clips are `all[base..base + |Clips(cs)|]` among the clips of the run,
   * the counter entered the track at `c0` and stands at `clipNum0`. A
   * component that is not annotated changes nothing; an annotated one
   * advances the counter, and then either stops the walk, when the counter
   * has passed the last event, or gets the counter's event as its note. In
   * every case the first `Min(clipNum, |events|)` clips of the run, and no
   * others, carry their final notes.
   */
  method VisitComponent(events: seq<string>, cs: seq<Component>, j: nat, c0: nat, clipNum0: nat, log0: seq<ClipLine>,
                        ghost all: seq<Component>, ghost base: nat, ghost before: seq<Option<seq<TaggedValue>>>,
                        ghost after: seq<Option<seq<TaggedValue>>>)
    returns (clipNum: nat, log: seq<ClipLine>, stop: bool)
    requires Distinct(all) && |before| == |all| && |after| == |all|
    requires NotesWritten(before, after, events, |all|)
    requires base + |Clips(cs)| <= |all| && all[base..base + |Clips(cs)|] == Clips(cs)
    requires (base <= |events| && c0 == base) || (base > |events| && c0 > |events|)
    requires j < |cs| && clipNum0 == c0 + |ClipsUpTo(cs, j)| && (clipNum0 <= |events| || clipNum0 == c0)
    requires Min(clipNum0, |events|) <= |all|
    requires AttributesOf(all) == Spliced(before, after, Min(clipNum0, |events|))
    requires Reported(log0, all, events, Min(clipNum0, |events|))
    modifies TrackWritten(cs, c0, |events|)
    ensures clipNum == c0 + |ClipsUpTo(cs, j + 1)|
    ensures stop <==> Annotatable(cs[j].kind) && clipNum > |events|
    ensures clipNum <= |events| || clipNum == c0 || stop
    ensures Min(clipNum, |events|) <= |all|
    ensures AttributesOf(all) == Spliced(before, after, Min(clipNum, |events|))
    ensures Reported(log, all, events, Min(clipNum, |events|))
  {
    var target := cs[j];
    var annotate, name := Classify(target.kind);
    if !annotate {
      return clipNum0, log0, false;
    }
    ClipInRun(all, base, cs, j);
    clipNum := clipNum0 + 1;
    if clipNum > |events| {
      return clipNum, log0, true;
    }
    InTrackWritten(cs, c0, |events|, j);
    var vfxId := events[clipNum - 1];
    log := AnnotateClip(target, clipNum, name, vfxId, log0, all, before, after, events, clipNum0);
    stop := false;
  }

  /**
   * The walk over one picture track (server.py, lines 51-106), the counter
   * entering at `c0`: `base` when the run still has events left, past the
   * last event otherwise. The k-th clip of the track gets event `c0 + k`
   * while that event exists; the walk stops at the first clip without one.
   */
  method AnnotateTrack(events: seq<string>, cs: seq<Component>, c0: nat, log0: seq<ClipLine>,
                       ghost all: seq<Component>, ghost base: nat, ghost before: seq<Option<seq<TaggedValue>>>,
                       ghost after: seq<Option<seq<TaggedValue>>>)
    returns (clipNum: nat, log: seq<ClipLine>)
    requires Distinct(all) && |before| == |all| && |after| == |all|
    requires NotesWritten(before, after, events, |all|)
    requires base + |Clips(cs)| <= |all| && all[base..base + |Clips(cs)|] == Clips(cs)
    requires (base <= |events| && c0 == base) || (base > |events| && c0 > |events|)
    requires AttributesOf(all) == Spliced(before, after, Min(c0, |events|))
    requires Reported(log0, all, events, Min(c0, |events|))
    modifies TrackWritten(cs, c0, |events|)
    ensures clipNum == Walk(cs, c0, |events|)
    ensures Min(clipNum, |events|) <= |all|
    ensures AttributesOf(all) == Spliced(before, after, Min(clipNum, |events|))
    ensures Reported(log, all, events, Min(clipNum, |events|))
  {
    clipNum := c0;
    log := log0;
    for j := 0 to |cs|
      invariant clipNum == c0 + |ClipsUpTo(cs, j)| && (clipNum <= |events| || clipNum == c0)
      invariant Min(clipNum, |events|) <= |all|
      invariant AttributesOf(all) == Spliced(before, after, Min(clipNum, |events|))
      invariant Reported(log, all, events, Min(clipNum, |events|))
    {
      var stop;
      clipNum, log, stop := VisitComponent(events, cs, j, c0, clipNum, log, all, base, before, after);
      if stop {
        WalkStops(cs, c0, |events|, j);
        return;
      }
    }
    WalkCount(cs, c0, |events|);
  }

  /**
   * Composition `ci` of the document (server.py, lines 39-106): find its
   * picture track and walk it, the counter entering at `c0`; a composition
   * without a picture track leaves everything as it was.
   */
  method AnnotateComposition(events: seq<string>, doc: seq<Composition>, ci: nat, c0: nat, log0: seq<ClipLine>,
                             ghost all: seq<Component>, ghost before: seq<Option<seq<TaggedValue>>>,
                             ghost after: seq<Option<seq<TaggedValue>>>)
    returns (clipNum: nat, log: seq<ClipLine>)
    requires ci < |doc| && all == AllClips(doc) && Distinct(all)
    requires |before| == |all| && |after| == |all|
    requires NotesWritten(before, after, events, |all|)
    requires c0 == CounterUpTo(doc, ci, |events|) && Min(c0, |events|) <= |all|
    requires AttributesOf(all) == Spliced(before, after, Min(c0, |events|))
    requires Reported(log0, all, events, Min(c0, |events|))
    modifies Written(doc, |events|)
    ensures clipNum == CounterUpTo(doc, ci + 1, |events|)
    ensures Min(clipNum, |events|) <= |all|
    ensures AttributesOf(all) == Spliced(before, after, Min(clipNum, |events|))
    ensures Reported(log, all, events, Min(clipNum, |events|))
  {
    ghost var base := |AllClipsUpTo(doc, ci)|;
    TrackInRun(doc, ci);
    CounterUpToMeaning(doc, ci, |events|);
    TrackWrittenInRun(doc, ci, c0, |events|);
    var slot := FindPictureSlot(doc[ci].slots);
    if slot.None? {
      assert Track(doc[ci]) == [];
      return c0, log0;
    }
    var cs := doc[ci].slots[slot.value].components.value;
    assert cs == Track(doc[ci]);
    clipNum, log := AnnotateTrack(events, cs, c0, log0, all, base, before, after);
  }

  /**
   * `events` holds each event record's VFX ID in order; `doc` holds the
   * document's top-level compositions. Returns the counter `clip_num` and
   * the per-clip report lines.
   */
  method WriteClipNotes(events: seq<string>, doc: seq<Composition>) returns (clipNum: nat, log: seq<ClipLine>)
    requires Distinct(AllClips(doc))
    modifies Written(doc, |events|)
    ensures clipNum == Counter(doc, |events|)
    ensures var a := AllClips(doc); NotesWritten(old(AttributesOf(a)), AttributesOf(a), events, |a|)
    ensures var a := AllClips(doc); Min(|a|, |events|) <= |a| && Reported(log, a, events, Min(|a|, |events|))
  {
    ghost var all := AllClips(doc);
    ghost var before := AttributesOf(all);
    NotesWrittenExist(before, events);
    ghost var after :| |after| == |before| && NotesWritten(before, after, events, |before|);
    clipNum := 0;
    log := [];
    for ci := 0 to |doc|
      invariant clipNum == CounterUpTo(doc, ci, |events|) && Min(clipNum, |events|) <= |all|
      invariant AttributesOf(all) == Spliced(before, after, Min(clipNum, |events|))
      invariant Reported(log, all, events, Min(clipNum, |events|))
    {
      clipNum, log := AnnotateComposition(events, doc, ci, clipNum, log, all, before, after);
    }
    CounterMeaning(doc, |events|);
    assert Min(clipNum, |events|) == Min(|all|, |events|);
    SplicedDone(before, after, events);
  }
}
