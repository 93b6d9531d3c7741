# Clip notes for a VFX turnover AAF

This project models the annotation pass of web-vfx-turnover,
`_write_aaf_clip_notes` (server.py, lines 28-114). It takes a list of
turnover events and an AAF (Advanced Authoring Format) document. It writes
each event's VFX ID as a `_COMMENT` clip note on the matching clip of the
edit, and returns the number of clips it counted.

The pass has four steps:

- **Track selection.** For every top-level composition, it picks the picture
  track. That is the first slot whose segment has a component list and whose
  media kind, lower-cased, contains `picture`. A composition without one is
  skipped.
- **Classification.** It walks that track's components in timeline order.
  These are annotated: SourceClips whose mob resolves, Selectors and
  OperationGroups. These are passed over: Fillers, SourceClips without a
  mob, and any other kind.
- **Matching.** One counter, `clip_num`, is started once and shared by all
  compositions. It pairs the k-th annotated clip of the whole run with the
  k-th event. The first clip that takes the counter past the number of
  events gets no note, and it ends that composition's walk. It is still
  counted. Each later composition with a clip counts its first clip in the
  same way and stops there. So with `m` events and more than `m` clips, the
  value returned is `m + 1` plus the number of later compositions that have
  a clip.
- **Upsert.** The note is written into the clip's `ComponentAttributeList`.
  A missing list is created empty. The value of the first `_COMMENT` entry
  is overwritten. Without such an entry, a new one is appended.

The AAF document is an abstract tree (module `Aaf`):

- Compositions, slots, and the segments nested inside a component are
  values.
- Timeline components are objects of class `Component`. Their
  `attributes` field is the attribute list that the pass updates in place.

The pass itself is imperative, in module `ClipNotes`:

- `WriteClipNotes` loops over the compositions.
- `AnnotateComposition` selects the track.
- `AnnotateTrack` loops over the components.
- `VisitComponent` handles one component.
- `AnnotateClip` writes one note.

Each of these methods is proved against specification functions in module
`Matching`:

- `Walk` and `CounterUpTo` give the counter.
- `AllClips` gives the clips of the run, in order.
- `Written` gives the components that receive a note.

Module `ClipNotes` adds two more:

- `NotesWritten` relates every clip's attribute list before the pass to the
  one after it.
- `Reported` describes the per-clip report line.

The properties of the pass are proved as lemmas about these functions.

Three behaviours of the code are worth stating plainly:

- The counter is shared across compositions and never reset.
- A Selector is annotated whether or not its selection resolves.
- The upsert leaves any second `_COMMENT` entry in place. So the list ends
  with at least one note, not always exactly one. `Notes.UpsertCommentCount`
  states how many.

## Model

| member | source | states |
|---|---|---|
| Aaf.Component.WriteNote | server.py:91-104 | the component's attribute list becomes `Upsert` of the old one: created when absent, first `_COMMENT` overwritten, else one appended |
| Notes.FirstComment | server.py:96-101 | the index found holds `_COMMENT` and no earlier entry does; none is found only when no entry is named `_COMMENT` |
| Notes.FirstCommentAt | server.py:96-101 | a `_COMMENT` entry with none before it is the one the scan stops at |
| Notes.UpsertByFirst | server.py:91-104 | the upsert overwrites the value of the first `_COMMENT` entry when there is one, and otherwise appends `(_COMMENT, vfxId)` to the list (an absent list reads as empty) |
| Notes.UpsertAppends | server.py:91-104 | without a `_COMMENT` entry, the result is the old entries followed by exactly one new `(_COMMENT, vfxId)` |
| Notes.UpsertOverwrites | server.py:96-101 | when entry `i` is the first `_COMMENT` entry, the result is the old list with only entry `i` replaced by `(_COMMENT, vfxId)`; length, order and other entries are kept |
| Notes.UpsertWritesNote | server.py:91-104 | afterwards the first `_COMMENT` entry exists and carries `vfxId` |
| Notes.UpsertIdempotent | server.py:96-104 | writing the same VFX ID twice gives the same list as writing it once |
| Notes.UpsertCommentCount | server.py:96-104 | the number of `_COMMENT` entries becomes 1 when it was 0 and is unchanged otherwise |
| Tracks.ContainsOccurrence | server.py:44 | an occurrence of the substring at some offset makes `Contains` true |
| Tracks.ContainsWitness | server.py:44 | `Contains` holds only when the substring occurs at some offset, which is returned |
| Tracks.FirstPictureSlotIsFirst | server.py:39-49 | the slot chosen has a component list and a media kind containing `picture` when lower-cased, and no earlier slot qualifies; none is chosen only when no slot qualifies |
| Tracks.FindPictureSlot | server.py:39-46 | the slot loop returns the first qualifying slot, or none when no slot qualifies |
| Tracks.PictureKindIgnoresCase | server.py:43-44 | lower-casing a slot's media kind never changes whether it is chosen |
| Tracks.ShortKindNotPicture | server.py:43-44 | a media kind shorter than `picture` (such as `Sound`) never selects a slot |
| ClipNames.FirstClipNameIsFirst | server.py:73-77 | the inner scan finds nothing exactly when no nested segment is a SourceClip with a mob; otherwise it finds the mob name of the first such segment |
| ClipNames.ResolveGroupName | server.py:64-79 | the nested loops compute `GroupName` of the inputs |
| ClipNames.GroupNameFirstDirect | server.py:68-79 | when the first input that stops the scan is a SourceClip with a mob, the group's name is that mob's name; earlier inputs whose nested clips are all unresolved or whose first nested clip has an empty name are passed over |
| ClipNames.GroupNameFirstNested | server.py:68-79 | when the first input that stops the scan holds components whose first resolved clip has the non-empty name `n`, the group's name is `n` |
| ClipNames.GroupNameEmpty | server.py:64-79 | when no input stops the scan, the name is empty |
| ClipNames.GroupNameFound | server.py:64-79 | a non-empty name is the mob name of a clip that is an input or directly inside one (never deeper) |
| ClipNotes.Classify | server.py:52-81 | a component is annotated exactly when it is a SourceClip with a mob, a Selector or an OperationGroup (whether or not a name is found); when annotated, the name reported is its display name |
| Matching.WrittenAnnotatable | server.py:54-81 | every component the pass may change is annotatable: Fillers, SourceClips without a mob and other kinds are never touched |
| Matching.WalkCount | server.py:83-87 | one track with `n` clips entered with counter `c` and `m` events: unchanged if `n = 0`, `c + n` if all fit, else one past the larger of `c` and `m` |
| Matching.WalkStops | server.py:83-87 | the track's walk ends at the clip that takes the counter past `m`, counting it |
| Matching.CounterUpToMeaning | server.py:36-87 | after the first `n` compositions, the counter is the number of clips seen when that is at most `m`, and exceeds `m` otherwise |
| Matching.CounterMeaning | server.py:36-114 | the value returned is the number of clips of the whole run when that is at most `m`, and exceeds `m` otherwise |
| Matching.SingleComposition | server.py:83-114 | one composition with `n` clips and `m` events: it returns `n` if `n <= m`, else `m + 1`; its clips are the run's clips, and when they are distinct objects exactly `min(n, m)` components are in the set the pass writes |
| Matching.WrittenCount | server.py:83-104 | when the clips of the run are distinct objects, the set of components that receive a note has exactly `min(N, m)` elements, for `N` clips and `m` events |
| Matching.NoPictureTrack | server.py:48-49 | a composition without a picture track adds no clips and leaves the counter unchanged |
| Matching.AfterOverflow | server.py:83-87 | once the counter has passed `m`, each later composition with a clip adds exactly one to it |
| ClipNotes.AnnotateClip | server.py:89-106 | writes event `k`'s VFX ID into clip `k`, changes no other clip's attributes, and reports line `k + 1` |
| ClipNotes.VisitComponent | server.py:52-106 | one component: the counter grows by one exactly for an annotatable component; the stop flag is set exactly when that takes it past the events; the clips reached so far are in their final state and reported |
| ClipNotes.AnnotateTrack | server.py:51-106 | the component loop leaves the counter at `Walk` of the track; every clip of the run up to the counter is in its final state, later ones are untouched, and the report lists them in order |
| ClipNotes.AnnotateComposition | server.py:38-106 | one composition advances the counter from `CounterUpTo(doc, ci)` to `CounterUpTo(doc, ci + 1)` and keeps the same state invariant |
| ClipNotes.WriteClipNotes | server.py:28-114 | returns `Counter(doc, m)`; clip `k` of the run gets event `k`'s VFX ID by upsert when `k < m` and is left as it was otherwise; only those clips are modified; the report has one line per note, numbered from 1 |

## Left out

- HTTP routes, CORS, request parsing and status codes are not modelled. This covers `health` and `export_aaf`, which are transport code.
- File handling is not modelled: copying the input, opening and saving the AAF, temporary directories, `send_file`. The model works on the document tree after it is opened.
- The `aaf2` library is not modelled: its class checks, mob resolution and `f.create.TaggedValue`. Instead, each component carries a closed `Kind`, with its mob already resolved or absent. The `hasattr`/`getattr` probes become `Option` fields, and a missing media kind reads as the empty string.
- The warnings printed at lines 86, 109 and 113 are left out because they have no effect on the document. The per-clip line at line 106 is modelled as the `log` of `ClipLine` values.
- ClipNotes.Classify: does not model the failure when a Selector's selected segment is not a SourceClip, such as a Sequence or a Filler. Line 63 then reads `sel.mob` without the class check that lines 70 and 75 make. That read raises AttributeError, so the run aborts before the document is saved. The model instead gives such a Selector an empty name and annotates it, as it does a Selector with no selection.
- Events are modelled as the sequence of their VFX IDs. An event record without a `VFX ID` key raises a `KeyError` in the source, and that failure is not modelled.
- `str.lower()` is modelled for ASCII letters only. Unicode case mapping is not modelled.
- ClipNotes.WriteClipNotes: requires that no component object appears twice among the clips of the run (`Distinct`). An AAF component is owned by one segment, so the source relies on this without checking it. When it does not hold, the model does not describe the resulting aliasing, where one later note overwrites an earlier one.
- The non-empty events check of the HTTP handler is not carried over as a precondition. The pass handles an empty list itself: the first clip stops the composition.
- Component durations, timeline positions and markers are not modelled, because this pass never reads them.
