/**
 * Track selection (server.py, lines 39-49): the picture track of a
 * composition is its first slot whose segment has a component list and whose
 * media kind, lower-cased, contains "picture".
 */
module Tracks {
  import opened Wrappers
  import opened Aaf

  /** ASCII lower-casing of one character. */
  function LowerChar(c: char): (r: char)
    ensures 'A' <= c <= 'Z' ==> r as int == c as int + 32
    ensures !('A' <= c <= 'Z') ==> r == c
  {
    if 'A' <= c <= 'Z' then (c as int + 32) as char else c
  }

  /** ASCII lower-casing of a string. */
  function Lower(s: string): string
  {
    if s == [] then [] else [LowerChar(s[0])] + Lower(s[1..])
  }

  /** Substring test: `sub` occurs in `s` at some offset. */
  predicate Contains(s: string, sub: string)
  {
    |sub| <= |s| && (sub <= s || Contains(s[1..], sub))
  }

  /** An occurrence of `sub` at offset `i` makes `Contains` true. */
  lemma {:induction false} ContainsOccurrence(s: string, sub: string, i: nat)
    requires i + |sub| <= |s| && s[i..i + |sub|] == sub
    ensures Contains(s, sub)
  {
    if i > 0 {
      assert s[1..][i - 1..i - 1 + |sub|] == s[i..i + |sub|];
      ContainsOccurrence(s[1..], sub, i - 1);
    }
  }

  /** `Contains` is true only when `sub` occurs at some offset, which this lemma returns. */
  lemma {:induction false} ContainsWitness(s: string, sub: string) returns (i: nat)
    requires Contains(s, sub)
    ensures i + |sub| <= |s| && s[i..i + |sub|] == sub
  {
    if sub <= s {
      i := 0;
    } else {
      var k := ContainsWitness(s[1..], sub);
      assert s[1..][k..k + |sub|] == s[k + 1..k + 1 + |sub|];
      i := k + 1;
    }
  }

  /** A slot the note writer may take as the composition's picture track. */
  predicate IsPictureSlot(slot: Slot)
  {
    slot.components.Some? && slot.mediaKind != "" && Contains(Lower(slot.mediaKind), "picture")
  }

  /** Index of the first picture slot, if there is one. */
  function FirstPictureSlot(slots: seq<Slot>): Option<nat>
  {
    if slots == [] then None
    else if IsPictureSlot(slots[0]) then Some(0)
    else match FirstPictureSlot(slots[1..])
      case None => None
      case Some(i) => Some(i + 1)
  }

  /**
   * `FirstPictureSlot` finds the first picture slot: the slot it names is
   * one, no slot before it is, and it names none only when no slot is.
   */
  lemma {:induction false} FirstPictureSlotIsFirst(slots: seq<Slot>)
    ensures var r := FirstPictureSlot(slots);
      (r.Some? ==> r.value < |slots| && IsPictureSlot(slots[r.value]) &&
                   forall j :: 0 <= j < r.value ==> !IsPictureSlot(slots[j])) &&
      (r.None? ==> forall j :: 0 <= j < |slots| ==> !IsPictureSlot(slots[j]))
  {
    if slots != [] && !IsPictureSlot(slots[0]) {
      FirstPictureSlotIsFirst(slots[1..]);
      assert forall j :: 1 <= j < |slots| ==> slots[j] == slots[1..][j - 1];
    }
  }

  /** ASCII lower-casing keeps the length and lower-cases each character in place. */
  lemma {:induction false} LowerAt(s: string)
    ensures |Lower(s)| == |s|
    ensures forall i :: 0 <= i < |s| ==> Lower(s)[i] == LowerChar(s[i])
  {
    if s != [] {
      LowerAt(s[1..]);
    }
  }

  /** The components of a composition's picture track; none when it has no picture track. */
  function Track(comp: Composition): seq<Component>
  {
    FirstPictureSlotIsFirst(comp.slots);
    match FirstPictureSlot(comp.slots)
    case None => []
    case Some(i) => comp.slots[i].components.value
  }

  /** The slot scan of server.py, lines 39-46. */
  method FindPictureSlot(slots: seq<Slot>) returns (r: Option<nat>)
    ensures r.Some? ==> r.value < |slots| && IsPictureSlot(slots[r.value])
    ensures r.Some? ==> forall j :: 0 <= j < r.value ==> !IsPictureSlot(slots[j])
    ensures r.None? ==> forall j :: 0 <= j < |slots| ==> !IsPictureSlot(slots[j])
    ensures r == FirstPictureSlot(slots)
  {
    FirstPictureSlotIsFirst(slots);
    r := None;
    for i := 0 to |slots|
      invariant r.None?
      invariant forall j :: 0 <= j < i ==> !IsPictureSlot(slots[j])
    {
      if slots[i].components.None? {
        continue;
      }
      var mediaKind := slots[i].mediaKind;
      if mediaKind != "" && Contains(Lower(mediaKind), "picture") {
        r := Some(i);
        break;
      }
    }
  }

  /** Lower-casing a character twice is lower-casing it once. */
  lemma LowerCharIdempotent(c: char)
    ensures LowerChar(LowerChar(c)) == LowerChar(c)
  {
  }

  /** Lower-casing a string twice is lower-casing it once. */
  lemma {:induction false} LowerIdempotent(s: string)
    ensures Lower(Lower(s)) == Lower(s)
  {
    if s != [] {
      LowerIdempotent(s[1..]);
      LowerCharIdempotent(s[0]);
      assert Lower(s)[0] == LowerChar(s[0]) && Lower(s)[1..] == Lower(s[1..]);
    }
  }

  /**
   * The media kind test ignores case: a slot whose media kind is written in
   * any mix of upper and lower case is a picture slot exactly when the same
   * slot with the kind lower-cased is one.
   */
  lemma {:induction false} PictureKindIgnoresCase(kind: string, comps: Option<seq<Component>>)
    ensures IsPictureSlot(Slot(Lower(kind), comps)) == IsPictureSlot(Slot(kind, comps))
  {
    LowerAt(kind);
    LowerIdempotent(kind);
  }

  /** A media kind shorter than "picture" never selects a slot (so "Sound" does not). */
  lemma {:induction false} ShortKindNotPicture(kind: string, comps: Option<seq<Component>>)
    requires |kind| < |"picture"|
    ensures !IsPictureSlot(Slot(kind, comps))
  {
    LowerAt(kind);
  }
}
