/**
 * The clip note: a tagged value named `_COMMENT` in a component's attribute
 * list, and the upsert that writes it (server.py, lines 91-104).
 */
module Notes {
  import opened Wrappers

  /** The reserved attribute name under which a VFX ID is stored. */
  const COMMENT: string := "_COMMENT"

  /** One entry of a `ComponentAttributeList`. */
  datatype TaggedValue = TaggedValue(name: string, value: string)

  /** The entries of an attribute list; an absent list reads as empty. */
  function Entries(list: Option<seq<TaggedValue>>): seq<TaggedValue>
  {
    match list
    case None => []
    case Some(l) => l
  }

  /** Index of the first entry named `_COMMENT` at or after position `from`, if there is one. */
  function FirstCommentFrom(l: seq<TaggedValue>, from: nat): (r: Option<nat>)
    requires from <= |l|
    ensures r.Some? ==> from <= r.value < |l| && l[r.value].name == COMMENT
    ensures r.Some? ==> forall j :: from <= j < r.value ==> l[j].name != COMMENT
    ensures r.None? ==> forall j :: from <= j < |l| ==> l[j].name != COMMENT
    decreases |l| - from
  {
    if from == |l| then None
    else if l[from].name == COMMENT then Some(from)
    else FirstCommentFrom(l, from + 1)
  }

  /** Index of the first entry named `_COMMENT`, if there is one: the entry the scan of lines 96-101 stops at. */
  function FirstComment(l: seq<TaggedValue>): (r: Option<nat>)
    ensures r.Some? ==> r.value < |l| && l[r.value].name == COMMENT
    ensures r.Some? ==> forall j :: 0 <= j < r.value ==> l[j].name != COMMENT
    ensures r.None? ==> forall j :: 0 <= j < |l| ==> l[j].name != COMMENT
  {
    FirstCommentFrom(l, 0)
  }

  /**
   * The attribute list after writing the note `vfxId`: a missing list is
   * created empty; the first `_COMMENT` entry has its value overwritten;
   * without one, a new `_COMMENT` entry is appended.
   */
  function Upsert(list: Option<seq<TaggedValue>>, vfxId: string): seq<TaggedValue>
  {
    UpsertFrom(Entries(list), 0, vfxId)
  }

  /** The scan of lines 96-104 from entry `i` on. */
  function UpsertFrom(l: seq<TaggedValue>, i: nat, vfxId: string): seq<TaggedValue>
    requires i <= |l|
    decreases |l| - i
  {
    if i == |l| then l + [TaggedValue(COMMENT, vfxId)]
    else if l[i].name == COMMENT then l[i := l[i].(value := vfxId)]
    else UpsertFrom(l, i + 1, vfxId)
  }

  /** The scan from `i` overwrites the first `_COMMENT` entry at or after `i`. */
  lemma {:induction false} UpsertFromOverwrites(l: seq<TaggedValue>, i: nat, vfxId: string, c: nat)
    requires i <= c < |l| && l[c].name == COMMENT
    requires forall j :: i <= j < c ==> l[j].name != COMMENT
    ensures UpsertFrom(l, i, vfxId) == l[c := l[c].(value := vfxId)]
    decreases c - i
  {
    if i < c {
      assert l[i].name != COMMENT;
      UpsertFromOverwrites(l, i + 1, vfxId, c);
    }
  }

  /** The scan from `i` appends a note when no `_COMMENT` entry follows `i`. */
  lemma {:induction false} UpsertFromAppends(l: seq<TaggedValue>, i: nat, vfxId: string)
    requires i <= |l|
    requires forall j :: i <= j < |l| ==> l[j].name != COMMENT
    ensures UpsertFrom(l, i, vfxId) == l + [TaggedValue(COMMENT, vfxId)]
    decreases |l| - i
  {
    if i < |l| {
      assert l[i].name != COMMENT;
      UpsertFromAppends(l, i + 1, vfxId);
    }
  }

  /** The upsert in terms of the first `_COMMENT` entry. */
  lemma {:induction false} UpsertByFirst(list: Option<seq<TaggedValue>>, vfxId: string)
    ensures var l := Entries(list);
      Upsert(list, vfxId) == match FirstComment(l)
        case Some(i) => l[i := l[i].(value := vfxId)]
        case None => l + [TaggedValue(COMMENT, vfxId)]
  {
    var l := Entries(list);
    match FirstComment(l)
    case Some(i) =>
      UpsertFromOverwrites(l, 0, vfxId, i);
    case None =>
      UpsertFromAppends(l, 0, vfxId);
  }

  /** A position that holds `_COMMENT` with none before it is the first one. */
  lemma {:induction false} FirstCommentAt(l: seq<TaggedValue>, i: nat)
    requires i < |l| && l[i].name == COMMENT
    requires forall j :: 0 <= j < i ==> l[j].name != COMMENT
    ensures FirstComment(l) == Some(i)
  {
    FirstCommentFromAt(l, 0, i);
  }

  /** The scan from `from` stops at `i` when `i` is the first `_COMMENT` entry at or after `from`. */
  lemma {:induction false} FirstCommentFromAt(l: seq<TaggedValue>, from: nat, i: nat)
    requires from <= i < |l| && l[i].name == COMMENT
    requires forall j :: from <= j < i ==> l[j].name != COMMENT
    ensures FirstCommentFrom(l, from) == Some(i)
    decreases i - from
  {
    if from < i {
      FirstCommentFromAt(l, from + 1, i);
    }
  }

  /** Without a `_COMMENT` entry, the upsert appends exactly one, at the end. */
  lemma {:induction false} UpsertAppends(list: Option<seq<TaggedValue>>, vfxId: string)
    requires forall j :: 0 <= j < |Entries(list)| ==> Entries(list)[j].name != COMMENT
    ensures Upsert(list, vfxId) == Entries(list) + [TaggedValue(COMMENT, vfxId)]
  {
    UpsertFromAppends(Entries(list), 0, vfxId);
  }

  /**
   * When entry `i` is the first `_COMMENT` entry, the upsert keeps the list's
   * length and changes only entry `i`, whose value becomes `vfxId`.
   */
  lemma {:induction false} UpsertOverwrites(list: Option<seq<TaggedValue>>, vfxId: string, i: nat)
    requires i < |Entries(list)| && Entries(list)[i].name == COMMENT
    requires forall j :: 0 <= j < i ==> Entries(list)[j].name != COMMENT
    ensures Upsert(list, vfxId) == Entries(list)[i := TaggedValue(COMMENT, vfxId)]
  {
    UpsertFromOverwrites(Entries(list), 0, vfxId, i);
  }

  /** After the upsert the note is present: the first `_COMMENT` entry carries `vfxId`. */
  lemma {:induction false} UpsertWritesNote(list: Option<seq<TaggedValue>>, vfxId: string)
    ensures var r := Upsert(list, vfxId);
      FirstComment(r).Some? && r[FirstComment(r).value].value == vfxId
  {
    var l, r := Entries(list), Upsert(list, vfxId);
    UpsertByFirst(list, vfxId);
    match FirstComment(l)
    case Some(i) =>
      FirstCommentAt(r, i);
    case None =>
      FirstCommentAt(r, |l|);
  }

  /** Writing the same note twice leaves the list as writing it once. */
  lemma {:induction false} UpsertIdempotent(list: Option<seq<TaggedValue>>, vfxId: string)
    ensures Upsert(Some(Upsert(list, vfxId)), vfxId) == Upsert(list, vfxId)
  {
    var r := Upsert(list, vfxId);
    UpsertWritesNote(list, vfxId);
    UpsertByFirst(Some(r), vfxId);
    var i := FirstComment(r).value;
    assert r[i := r[i].(value := vfxId)] == r;
  }

  /** Number of entries named `_COMMENT`. */
  function CommentCount(l: seq<TaggedValue>): nat
  {
    if l == [] then 0 else (if l[0].name == COMMENT then 1 else 0) + CommentCount(l[1..])
  }

  /** A list without `_COMMENT` entries counts none. */
  lemma {:induction false} CommentCountNone(l: seq<TaggedValue>)
    requires forall j :: 0 <= j < |l| ==> l[j].name != COMMENT
    ensures CommentCount(l) == 0
  {
    if l != [] {
      assert l[0].name != COMMENT;
      CommentCountNone(l[1..]);
    }
  }

  /** Appending one entry adds one to the count when it is a `_COMMENT` entry. */
  lemma {:induction false} CommentCountAppend(l: seq<TaggedValue>, t: TaggedValue)
    ensures CommentCount(l + [t]) == CommentCount(l) + if t.name == COMMENT then 1 else 0
  {
    if l == [] {
      assert [t][1..] == [];
    } else {
      assert (l + [t])[1..] == l[1..] + [t];
      CommentCountAppend(l[1..], t);
    }
  }

  /** Replacing an entry by one with the same name keeps the count. */
  lemma {:induction false} CommentCountUpdate(l: seq<TaggedValue>, i: nat, t: TaggedValue)
    requires i < |l| && t.name == l[i].name
    ensures CommentCount(l[i := t]) == CommentCount(l)
  {
    if i == 0 {
      assert l[i := t][1..] == l[1..];
    } else {
      assert l[i := t][1..] == l[1..][i - 1 := t];
      CommentCountUpdate(l[1..], i - 1, t);
    }
  }

  /**
   * The upsert never adds a second note: the number of `_COMMENT` entries
   * becomes one when there was none and is otherwise unchanged.
   */
  lemma {:induction false} UpsertCommentCount(list: Option<seq<TaggedValue>>, vfxId: string)
    ensures CommentCount(Upsert(list, vfxId)) ==
              if CommentCount(Entries(list)) == 0 then 1 else CommentCount(Entries(list))
  {
    var l := Entries(list);
    UpsertByFirst(list, vfxId);
    match FirstComment(l)
    case Some(i) =>
      CommentCountUpdate(l, i, l[i].(value := vfxId));
      assert CommentCount(l) != 0 by {
        CommentCountPositive(l, i);
      }
    case None =>
      CommentCountNone(l);
      CommentCountAppend(l, TaggedValue(COMMENT, vfxId));
  }

  /** A list with a `_COMMENT` entry counts at least one. */
  lemma {:induction false} CommentCountPositive(l: seq<TaggedValue>, i: nat)
    requires i < |l| && l[i].name == COMMENT
    ensures CommentCount(l) > 0
  {
    if i > 0 {
      CommentCountPositive(l[1..], i - 1);
    }
  }
}
