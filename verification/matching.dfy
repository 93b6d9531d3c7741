/**
 * Positional matching of clips to events (server.py, lines 36 and 51-89):
 * which components count as clips, how the shared counter `clip_num`
 * advances, and which clip receives which event.
 */
module Matching {
  import opened Wrappers
  import opened Aaf
  import opened Tracks

  /**
   * A component that receives a note: a SourceClip whose mob resolves, any
   * Selector, any OperationGroup. Fillers, SourceClips without a mob and
   * unrecognised kinds are passed over.
   */
  predicate Annotatable(kind: Kind)
  {
    match kind
    case SourceClip(mob) => mob.Some?
    case Selector(_) => true
    case OperationGroup(_) => true
    case Filler => false
    case OtherKind => false
  }

  /** The annotatable components among the first `j` components of a track, in timeline order. */
  function ClipsUpTo(cs: seq<Component>, j: nat): seq<Component>
    requires j <= |cs|
  {
    if j == 0 then []
    else ClipsUpTo(cs, j - 1) + (if Annotatable(cs[j - 1].kind) then [cs[j - 1]] else [])
  }

  /** The annotatable components of a track, in timeline order. */
  function Clips(cs: seq<Component>): seq<Component>
  {
    ClipsUpTo(cs, |cs|)
  }

  /** The clips of the picture tracks of the first `n` compositions, composition after composition. */
  function AllClipsUpTo(doc: seq<Composition>, n: nat): seq<Component>
    requires n <= |doc|
  {
    if n == 0 then [] else AllClipsUpTo(doc, n - 1) + Clips(Track(doc[n - 1]))
  }

  /** The clips of the whole run. */
  function AllClips(doc: seq<Composition>): seq<Component>
  {
    AllClipsUpTo(doc, |doc|)
  }

  /**
   * The counter after walking one track from `c` with `m` events: each
   * annotatable component adds one, and the walk stops at the first one that
   * takes the counter past `m`, after counting it.
   */
  function Walk(cs: seq<Component>, c: nat, m: nat): nat
  {
    if cs == [] then c
    else if !Annotatable(cs[0].kind) then Walk(cs[1..], c, m)
    else if c + 1 > m then c + 1
    else Walk(cs[1..], c + 1, m)
  }

  /** The counter after the first `n` compositions; it starts at 0 once and is never reset. */
  function CounterUpTo(doc: seq<Composition>, n: nat, m: nat): nat
    requires n <= |doc|
  {
    if n == 0 then 0 else Walk(Track(doc[n - 1]), CounterUpTo(doc, n - 1, m), m)
  }

  /** The counter returned for the whole document. */
  function Counter(doc: seq<Composition>, m: nat): nat
  {
    CounterUpTo(doc, |doc|, m)
  }

  /** The components that receive a note: the first `m` clips of the whole run. */
  function Written(doc: seq<Composition>, m: nat): set<Component>
  {
    var a := AllClips(doc);
    set k | 0 <= k < Min(|a|, m) :: a[k]
  }

  /** The clips of track `cs` that get a note when the counter enters the track at `c0`. */
  function TrackWritten(cs: seq<Component>, c0: nat, m: nat): set<Component>
  {
    var a := Clips(cs);
    set k | 0 <= k < |a| && c0 + k < m :: a[k]
  }

  /** Every clip of the run is an annotatable component. */
  lemma {:induction false} AllClipsUpToAnnotatable(doc: seq<Composition>, n: nat)
    requires n <= |doc|
    ensures forall k :: 0 <= k < |AllClipsUpTo(doc, n)| ==> Annotatable(AllClipsUpTo(doc, n)[k].kind)
  {
    if n > 0 {
      var p, t := AllClipsUpTo(doc, n - 1), Track(doc[n - 1]);
      AllClipsUpToAnnotatable(doc, n - 1);
      ClipsUpToFrom(t, |t|);
      forall k | 0 <= k < |AllClipsUpTo(doc, n)| ensures Annotatable(AllClipsUpTo(doc, n)[k].kind) {
        if k >= |p| {
          assert AllClipsUpTo(doc, n)[k] == Clips(t)[k - |p|];
        }
      }
    }
  }

  /**
   * Only annotatable components can receive a note: a Filler, a SourceClip
   * without a mob or an unrecognised component is never among them.
   */
  lemma {:induction false} WrittenAnnotatable(doc: seq<Composition>, m: nat, x: Component)
    requires x in Written(doc, m)
    ensures Annotatable(x.kind)
  {
    AllClipsUpToAnnotatable(doc, |doc|);
  }

  /** An annotatable component reached while the counter is below `m` is among the clips the track writes. */
  lemma {:induction false} InTrackWritten(cs: seq<Component>, c0: nat, m: nat, j: nat)
    requires j < |cs| && Annotatable(cs[j].kind) && c0 + |ClipsUpTo(cs, j)| < m
    ensures cs[j] in TrackWritten(cs, c0, m)
  {
    ClipAt(cs, j);
  }

  /** No component object appears twice among the clips (each is owned by one segment). */
  predicate Distinct(a: seq<Component>)
  {
    forall i, j :: 0 <= i < |a| && 0 <= j < |a| && i != j ==> Apart(a, i, j)
  }

  /** Positions `i` and `j` of `a` hold different components. */
  predicate Apart(a: seq<Component>, i: nat, j: nat)
    requires i < |a| && j < |a|
  {
    a[i] != a[j]
  }

  /** Every clip is annotatable and is one of the track's components. */
  lemma {:induction false} ClipsUpToFrom(cs: seq<Component>, j: nat)
    requires j <= |cs|
    ensures forall k :: 0 <= k < |ClipsUpTo(cs, j)| ==>
      Annotatable(ClipsUpTo(cs, j)[k].kind) && ClipsUpTo(cs, j)[k] in cs
  {
    if j > 0 {
      ClipsUpToFrom(cs, j - 1);
    }
  }

  /** The first `j` components of a track hold a prefix of its clips. */
  lemma {:induction false} ClipsPrefix(cs: seq<Component>, j: nat)
    requires j <= |cs|
    ensures ClipsUpTo(cs, j) <= Clips(cs)
    decreases |cs| - j
  {
    if j < |cs| {
      ClipsPrefix(cs, j + 1);
    }
  }

  /** An annotatable component is the clip that follows those before it. */
  lemma {:induction false} ClipAt(cs: seq<Component>, j: nat)
    requires j < |cs| && Annotatable(cs[j].kind)
    ensures |ClipsUpTo(cs, j)| < |Clips(cs)| && Clips(cs)[|ClipsUpTo(cs, j)|] == cs[j]
  {
    ClipsPrefix(cs, j + 1);
    assert ClipsUpTo(cs, j + 1) == ClipsUpTo(cs, j) + [cs[j]];
    assert ClipsUpTo(cs, j + 1)[|ClipsUpTo(cs, j)|] == cs[j];
  }

  /**
   * When the clips of track `cs` sit at `base` in `all`, the component at
   * position `j` of the track, if it is a clip, sits at `base` plus the
   * number of clips before it.
   */
  lemma {:induction false} ClipInRun(all: seq<Component>, base: nat, cs: seq<Component>, j: nat)
    requires base + |Clips(cs)| <= |all| && all[base..base + |Clips(cs)|] == Clips(cs)
    requires j < |cs| && Annotatable(cs[j].kind)
    ensures |ClipsUpTo(cs, j)| < |Clips(cs)| && Clips(cs)[|ClipsUpTo(cs, j)|] == cs[j]
    ensures all[base + |ClipsUpTo(cs, j)|] == cs[j]
  {
    ClipAt(cs, j);
    var i := |ClipsUpTo(cs, j)|;
    assert all[base..base + |Clips(cs)|][i] == all[base + i];
  }

  /** The first `n` compositions hold a prefix of the run's clips. */
  lemma {:induction false} AllClipsPrefix(doc: seq<Composition>, n: nat)
    requires n <= |doc|
    ensures AllClipsUpTo(doc, n) <= AllClips(doc)
    decreases |doc| - n
  {
    if n < |doc| {
      AllClipsPrefix(doc, n + 1);
    }
  }

  /**
   * Where composition `ci`'s clips sit among the clips of the whole run:
   * right after those of the compositions before it.
   */
  lemma {:induction false} TrackInRun(doc: seq<Composition>, ci: nat)
    requires ci < |doc|
    ensures var p, a := AllClipsUpTo(doc, ci), Clips(Track(doc[ci]));
      |p| + |a| <= |AllClips(doc)| && AllClips(doc)[|p|..|p| + |a|] == a
  {
    AllClipsPrefix(doc, ci + 1);
    var p, a := AllClipsUpTo(doc, ci), Clips(Track(doc[ci]));
    assert AllClipsUpTo(doc, ci + 1) == p + a;
    assert AllClips(doc)[|p|..|p| + |a|] == (p + a)[|p|..];
  }

  /**
   * The counter after one track in closed form, with `n` clips on the track:
   * unchanged when there are none, `c + n` when they all fit, and otherwise
   * one past the larger of `c` and `m` (the clip that overflowed is counted).
   */
  lemma {:induction false} WalkCount(cs: seq<Component>, c: nat, m: nat)
    ensures var n := |Clips(cs)|;
      Walk(cs, c, m) == if n == 0 then c else if c + n <= m then c + n else (if c < m then m else c) + 1
    decreases |cs|
  {
    if cs != [] {
      ClipsFirst(cs);
      if !Annotatable(cs[0].kind) {
        WalkCount(cs[1..], c, m);
      } else if c + 1 <= m {
        WalkCount(cs[1..], c + 1, m);
      }
    }
  }

  /**
   * The walk stops at component `j` when `j` is a clip and the counter,
   * which has not run past the last event before it, passes it there: the
   * counter ends one past its value on reaching `j`.
   */
  lemma {:induction false} WalkStops(cs: seq<Component>, c: nat, m: nat, j: nat)
    requires j < |cs| && Annotatable(cs[j].kind)
    requires c + |ClipsUpTo(cs, j)| <= m || |ClipsUpTo(cs, j)| == 0
    requires c + |ClipsUpTo(cs, j)| + 1 > m
    ensures Walk(cs, c, m) == c + |ClipsUpTo(cs, j)| + 1
  {
    ClipAt(cs, j);
    WalkCount(cs, c, m);
  }

  /** The clips of a non-empty track: its first component if annotatable, then the clips of the rest. */
  lemma {:induction false} ClipsFirst(cs: seq<Component>)
    requires cs != []
    ensures Clips(cs) == (if Annotatable(cs[0].kind) then [cs[0]] else []) + Clips(cs[1..])
  {
    ClipsFirstUpTo(cs, |cs|);
  }

  lemma {:induction false} ClipsFirstUpTo(cs: seq<Component>, j: nat)
    requires 0 < j <= |cs|
    ensures ClipsUpTo(cs, j) == (if Annotatable(cs[0].kind) then [cs[0]] else []) + ClipsUpTo(cs[1..], j - 1)
  {
    if j > 1 {
      ClipsFirstUpTo(cs, j - 1);
      assert cs[1..][j - 2] == cs[j - 1];
    }
  }

  /**
   * The meaning of the counter: with `A` the clips of the first `n`
   * compositions and `m` events, it is `|A|` when `|A| <= m`, and exceeds `m`
   * otherwise.
   */
  lemma {:induction false} CounterUpToMeaning(doc: seq<Composition>, n: nat, m: nat)
    requires n <= |doc|
    ensures var a := AllClipsUpTo(doc, n);
      (|a| <= m && CounterUpTo(doc, n, m) == |a|) || (|a| > m && CounterUpTo(doc, n, m) > m)
  {
    if n > 0 {
      CounterUpToMeaning(doc, n - 1, m);
      WalkCount(Track(doc[n - 1]), CounterUpTo(doc, n - 1, m), m);
    }
  }

  /**
   * The meaning of the returned counter: with `A` the clips of the whole run
   * and `m` events, it is `|A|` when `|A| <= m`, and exceeds `m` otherwise.
   */
  lemma {:induction false} CounterMeaning(doc: seq<Composition>, m: nat)
    ensures var a := AllClips(doc);
      (|a| <= m && Counter(doc, m) == |a|) || (|a| > m && Counter(doc, m) > m)
  {
    CounterUpToMeaning(doc, |doc|, m);
  }

  /**
   * One composition with `n` clips and `m` events: the counter returned is
   * `n` when `n <= m` and `m + 1` otherwise, and `min(n, m)` distinct
   * components receive a note.
   */
  lemma {:induction false} SingleComposition(comp: Composition, m: nat)
    ensures var n := |Clips(Track(comp))|;
      Counter([comp], m) == (if n <= m then n else m + 1) &&
      AllClips([comp]) == Clips(Track(comp)) &&
      Min(|AllClips([comp])|, m) == (if n <= m then n else m) &&
      (Distinct(Clips(Track(comp))) ==> |Written([comp], m)| == (if n <= m then n else m))
  {
    assert CounterUpTo([comp], 1, m) == Walk(Track(comp), CounterUpTo([comp], 0, m), m);
    assert AllClipsUpTo([comp], 1) == AllClipsUpTo([comp], 0) + Clips(Track(comp));
    WalkCount(Track(comp), 0, m);
    if Distinct(Clips(Track(comp))) {
      assert AllClips([comp]) == Clips(Track(comp));
      WrittenCount([comp], m);
    }
  }

  /** The first `n` elements of a sequence without repeats form a set of `n` elements. */
  lemma {:induction false} CardPrefix(a: seq<Component>, n: nat)
    requires n <= |a| && Distinct(a)
    ensures |set k | 0 <= k < n :: a[k]| == n
  {
    if n > 0 {
      CardPrefix(a, n - 1);
      var s, t := set k | 0 <= k < n - 1 :: a[k], set k | 0 <= k < n :: a[k];
      assert t == s + {a[n - 1]};
      assert a[n - 1] !in s by {
        forall k | 0 <= k < n - 1 ensures a[k] != a[n - 1] {
          assert Apart(a, k, n - 1);
        }
      }
    }
  }

  /**
   * The pass changes exactly `min(N, m)` components, `N` being the number of
   * clips of the run and `m` the number of events.
   */
  lemma {:induction false} WrittenCount(doc: seq<Composition>, m: nat)
    requires Distinct(AllClips(doc))
    ensures |Written(doc, m)| == Min(|AllClips(doc)|, m)
  {
    CardPrefix(AllClips(doc), Min(|AllClips(doc)|, m));
  }

  /** A composition without a picture track adds no clips and leaves the counter as it was. */
  lemma {:induction false} NoPictureTrack(doc: seq<Composition>, comp: Composition, m: nat)
    requires FirstPictureSlot(comp.slots).None?
    ensures Counter(doc + [comp], m) == Counter(doc, m)
    ensures AllClips(doc + [comp]) == AllClips(doc)
  {
    UpToAppend(doc, comp, m);
  }

  /** Once the counter has passed `m`, each later composition with a clip adds exactly one. */
  lemma {:induction false} AfterOverflow(doc: seq<Composition>, comp: Composition, m: nat)
    requires Counter(doc, m) > m
    ensures Counter(doc + [comp], m) == Counter(doc, m) + (if Clips(Track(comp)) == [] then 0 else 1)
  {
    UpToAppend(doc, comp, m);
    WalkCount(Track(comp), Counter(doc, m), m);
  }

  /** Appending a composition leaves the prefixes of the run as they were. */
  lemma {:induction false} UpToAppend(doc: seq<Composition>, comp: Composition, m: nat)
    ensures Counter(doc + [comp], m) == Walk(Track(comp), Counter(doc, m), m)
    ensures AllClips(doc + [comp]) == AllClips(doc) + Clips(Track(comp))
  {
    UpToExtend(doc, doc + [comp], |doc|, m);
  }

  lemma {:induction false} UpToExtend(doc: seq<Composition>, longer: seq<Composition>, n: nat, m: nat)
    requires n <= |doc| <= |longer| && doc[..n] == longer[..n]
    ensures CounterUpTo(doc, n, m) == CounterUpTo(longer, n, m)
    ensures AllClipsUpTo(doc, n) == AllClipsUpTo(longer, n)
  {
    if n > 0 {
      assert doc[n - 1] == doc[..n][n - 1] == longer[n - 1];
      UpToExtend(doc, longer, n - 1, m);
    }
  }

  /**
   * The notes written on composition `ci`'s track are among those of the
   * run.
   */
  lemma {:induction false} TrackWrittenInRun(doc: seq<Composition>, ci: nat, c0: nat, m: nat)
    requires ci < |doc|
    requires var b := |AllClipsUpTo(doc, ci)|; (b <= m && c0 == b) || (b > m && c0 > m)
    ensures TrackWritten(Track(doc[ci]), c0, m) <= Written(doc, m)
  {
    TrackInRun(doc, ci);
    var all, b, a := AllClips(doc), |AllClipsUpTo(doc, ci)|, Clips(Track(doc[ci]));
    forall x | x in TrackWritten(Track(doc[ci]), c0, m) ensures x in Written(doc, m) {
      var k :| 0 <= k < |a| && c0 + k < m && x == a[k];
      assert all[b..b + |a|][k] == all[b + k];
    }
  }
}
