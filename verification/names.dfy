/**
 * The display name printed for each annotated clip (server.py, lines 57-79).
 * It is advisory: it never decides whether a component is annotated.
 */
module ClipNames {
  import opened Wrappers
  import opened Aaf

  /** A nested segment that is a SourceClip whose mob resolves. */
  predicate IsResolvedClip(seg: Segment)
  {
    seg.ClipSegment? && seg.mob.Some?
  }

  /** An input the group-name scan can take a name from: a resolved clip, or a segment holding one directly. */
  predicate HasClip(seg: Segment)
  {
    IsResolvedClip(seg) ||
    (seg.SequenceSegment? && exists k :: 0 <= k < |seg.components| && IsResolvedClip(seg.components[k]))
  }

  /** The mob name of the first resolved clip among `segs`, if any. */
  function FirstClipName(segs: seq<Segment>): Option<string>
  {
    if segs == [] then None
    else if IsResolvedClip(segs[0]) then Some(segs[0].mob.value.name)
    else FirstClipName(segs[1..])
  }

  /**
   * The scan finds nothing exactly when no segment is a resolved clip, and
   * what it finds is the mob name of the first one.
   */
  lemma {:induction false} FirstClipNameIsFirst(segs: seq<Segment>)
    ensures FirstClipName(segs).None? <==> forall k :: 0 <= k < |segs| ==> !IsResolvedClip(segs[k])
    ensures FirstClipName(segs).Some? ==>
      exists k :: 0 <= k < |segs| && IsResolvedClip(segs[k]) && segs[k].mob.value.name == FirstClipName(segs).value &&
        forall j :: 0 <= j < k ==> !IsResolvedClip(segs[j])
  {
    if segs != [] && !IsResolvedClip(segs[0]) {
      FirstClipNameIsFirst(segs[1..]);
      if FirstClipName(segs).Some? {
        var k :| 0 <= k < |segs[1..]| && IsResolvedClip(segs[1..][k]) && segs[1..][k].mob.value.name == FirstClipName(segs).value &&
          forall j :: 0 <= j < k ==> !IsResolvedClip(segs[1..][j]);
        assert segs[k + 1] == segs[1..][k];
        assert forall j :: 0 <= j < k + 1 ==> !IsResolvedClip(segs[j]) by {
          forall j | 0 <= j < k + 1 ensures !IsResolvedClip(segs[j]) {
            if j > 0 { assert segs[j] == segs[1..][j - 1]; }
          }
        }
      } else {
        forall k | 0 <= k < |segs| ensures !IsResolvedClip(segs[k]) {
          if k > 0 { assert segs[k] == segs[1..][k - 1]; }
        }
      }
    }
  }

  /**
   * The name found for an OperationGroup from its input segments: the first
   * input that is a resolved clip gives its mob name; an input with its own
   * components gives the name of the first resolved clip among them, except
   * that an empty name there lets the scan go on to the next input; with no
   * such input the name is empty. Only one level of nesting is looked at.
   */
  function GroupName(inputs: seq<Segment>): string
  {
    if inputs == [] then ""
    else match inputs[0]
      case ClipSegment(mob) =>
        if mob.Some? then mob.value.name else GroupName(inputs[1..])
      case SequenceSegment(components) =>
        var n := FirstClipName(components);
        if n.Some? && n.value != "" then n.value else GroupName(inputs[1..])
      case OtherSegment => GroupName(inputs[1..])
  }

  /** The display name for a component of each kind (empty for kinds that are never annotated). */
  function DisplayName(kind: Kind): string
  {
    match kind
    case SourceClip(mob) => if mob.Some? then mob.value.name else ""
    case Selector(selected) =>
      if selected.Some? && IsResolvedClip(selected.value) then selected.value.mob.value.name else ""
    case OperationGroup(inputs) => GroupName(inputs)
    case _ => ""
  }

  /** The nested scan of server.py, lines 65-79. */
  method ResolveGroupName(inputs: seq<Segment>) returns (name: string)
    ensures name == GroupName(inputs)
  {
    name := "";
    for i := 0 to |inputs|
      invariant name == ""
      invariant GroupName(inputs) == GroupName(inputs[i..])
    {
      assert inputs[i..][1..] == inputs[i + 1..];
      var seg := inputs[i];
      if seg.ClipSegment? && seg.mob.Some? {
        name := seg.mob.value.name;
        break;
      }
      if seg.SequenceSegment? {
        var components := seg.components;
        for k := 0 to |components|
          invariant name == ""
          invariant FirstClipName(components) == FirstClipName(components[k..])
        {
          assert components[k..][1..] == components[k + 1..];
          var sc := components[k];
          if sc.ClipSegment? && sc.mob.Some? {
            name := sc.mob.value.name;
            break;
          }
        }
        if name != "" {
          break;
        }
      }
    }
  }

  /**
   * An input at which the group-name scan stops: a resolved clip (whatever
   * its name), or a segment whose first resolved clip has a non-empty name.
   */
  predicate GivesName(seg: Segment)
  {
    IsResolvedClip(seg) ||
    (seg.SequenceSegment? && FirstClipName(seg.components).Some? && FirstClipName(seg.components).value != "")
  }

  /** When no input stops the scan, the group's name is empty. */
  lemma {:induction false} GroupNameEmpty(inputs: seq<Segment>)
    requires forall i :: 0 <= i < |inputs| ==> !GivesName(inputs[i])
    ensures GroupName(inputs) == ""
  {
    if inputs != [] {
      assert !GivesName(inputs[0]);
      GroupNameEmpty(inputs[1..]);
    }
  }

  /** When the first input that stops the scan is a resolved clip, its mob name is the group's name. */
  lemma {:induction false} GroupNameFirstDirect(inputs: seq<Segment>, i: nat)
    requires i < |inputs| && IsResolvedClip(inputs[i])
    requires forall j :: 0 <= j < i ==> !GivesName(inputs[j])
    ensures GroupName(inputs) == inputs[i].mob.value.name
  {
    if i > 0 {
      assert !GivesName(inputs[0]);
      GroupNameFirstDirect(inputs[1..], i - 1);
    }
  }

  /**
   * When the first input that stops the scan holds components whose first
   * resolved clip is named `n` (non-empty), `n` is the group's name.
   */
  lemma {:induction false} GroupNameFirstNested(inputs: seq<Segment>, i: nat, n: string)
    requires i < |inputs| && inputs[i].SequenceSegment?
    requires FirstClipName(inputs[i].components) == Some(n) && n != ""
    requires forall j :: 0 <= j < i ==> !GivesName(inputs[j])
    ensures GroupName(inputs) == n
  {
    if i > 0 {
      assert !GivesName(inputs[0]);
      GroupNameFirstNested(inputs[1..], i - 1, n);
    }
  }

  /** A name the group resolves to is the mob name of a clip at most one level below it. */
  lemma {:induction false} GroupNameFound(inputs: seq<Segment>)
    requires GroupName(inputs) != ""
    ensures exists i :: 0 <= i < |inputs| && HasClip(inputs[i]) && NamedBy(inputs[i], GroupName(inputs))
  {
    match inputs[0]
    case ClipSegment(mob) =>
      if mob.None? {
        GroupNameFound(inputs[1..]);
        var i :| 0 <= i < |inputs[1..]| && HasClip(inputs[1..][i]) && NamedBy(inputs[1..][i], GroupName(inputs));
        assert inputs[i + 1] == inputs[1..][i];
      }
    case SequenceSegment(components) =>
      var n := FirstClipName(components);
      FirstClipNameIsFirst(components);
      if !(n.Some? && n.value != "") {
        GroupNameFound(inputs[1..]);
        var i :| 0 <= i < |inputs[1..]| && HasClip(inputs[1..][i]) && NamedBy(inputs[1..][i], GroupName(inputs));
        assert inputs[i + 1] == inputs[1..][i];
      }
    case OtherSegment =>
      GroupNameFound(inputs[1..]);
      var i :| 0 <= i < |inputs[1..]| && HasClip(inputs[1..][i]) && NamedBy(inputs[1..][i], GroupName(inputs));
      assert inputs[i + 1] == inputs[1..][i];
  }

  /** `seg` is, or directly holds, a resolved clip whose mob is named `name`. */
  predicate NamedBy(seg: Segment, name: string)
  {
    (IsResolvedClip(seg) && seg.mob.value.name == name) ||
    (seg.SequenceSegment? &&
     exists k :: 0 <= k < |seg.components| && IsResolvedClip(seg.components[k]) && seg.components[k].mob.value.name == name)
  }
}
