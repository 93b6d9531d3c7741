/**
 * The AAF document as the note writer sees it: compositions own slots, a
 * slot's segment may hold an ordered list of timeline components, and each
 * component may carry a `ComponentAttributeList`.
 *
 * Slots, compositions, mobs and the segments nested inside a component are
 * values, since the note writer only reads them. Timeline components are
 * objects: their attribute lists are updated in place.
 */
module Aaf {
  import opened Wrappers
  import opened Notes

  /** The master or source mob a clip refers to; only its name is read. */
  datatype Mob = Mob(name: string)

  /** A segment nested inside a component (a selector's choice, an effect's input). */
  datatype Segment =
    | ClipSegment(mob: Option<Mob>)               // a SourceClip, with its mob if it resolves
    | SequenceSegment(components: seq<Segment>)   // a segment that has `components`
    | OtherSegment                                // any other segment kind

  /** The runtime kind of a timeline component, with the parts the note writer reads. */
  datatype Kind =
    | Filler
    | SourceClip(mob: Option<Mob>)
    | Selector(selected: Option<Segment>)
    | OperationGroup(inputs: seq<Segment>)        // an absent InputSegments reads as []
    | OtherKind

  /** A timeline component on a track. */
  class Component {
    const kind: Kind
    var attributes: Option<seq<TaggedValue>>

    constructor (kind: Kind, attributes: Option<seq<TaggedValue>>)
      ensures this.kind == kind && this.attributes == attributes
    {
      this.kind := kind;
      this.attributes := attributes;
    }

    /**
     * Writes the note `vfxId` into this component's attribute list: create
     * the list when absent, overwrite the first `_COMMENT` entry in place, or
     * else append one.
     */
    method WriteNote(vfxId: string)
      modifies this
      ensures attributes == Some(Upsert(old(attributes), vfxId))
    {
      if attributes.None? {
        attributes := Some([]);
      }
      var found := false;
      var n := |attributes.value|;
      for i := 0 to n
        invariant attributes.Some? && |attributes.value| == n
        invariant attributes.value == Entries(old(attributes))
        invariant forall j :: 0 <= j < i ==> attributes.value[j].name != COMMENT
      {
        var attr := attributes.value[i];
        if attr.name == COMMENT {
          attributes := Some(attributes.value[i := attr.(value := vfxId)]);
          found := true;
          UpsertOverwrites(old(attributes), vfxId, i);
          break;
        }
      }
      if !found {
        UpsertAppends(old(attributes), vfxId);
        attributes := Some(attributes.value + [TaggedValue(COMMENT, vfxId)]);
      }
    }
  }

  /** A track slot: its media kind ("" when it has none) and, when its segment has one, its component list. */
  datatype Slot = Slot(mediaKind: string, components: Option<seq<Component>>)

  /** A top-level composition mob. */
  datatype Composition = Composition(slots: seq<Slot>)
}
