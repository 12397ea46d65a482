# Art-class storytime protocol generator, modelled in Dafny

`generateProtocol` builds the study protocol for one session of a
counterbalanced storytelling experiment. It returns two things:

- a frame dictionary, keyed by frame identifier;
- a frame sequence, the order in which the frames are shown.

There are four stories: Ask1, Ask2, Promise1 and Promise2. Each story asks six
questions, one per condition: ADJ0, ADJ1, ADJ2, ARG0, ARG1 and ARG2.

- **Versions.** Each question comes in version A or B. Twelve coin tosses pick
  the versions of Ask1 and Promise1. Ask2 and Promise2 always get the opposite
  version of each condition.
- **Question order.** Each story's question order (`QSequence`) is shuffled.
- **Trials.** Each question becomes two frames:
  - an exposition frame, which plays the story audio over the story image;
  - a question frame, which plays the question audio and shows four image
    buttons. The buttons are the question's button set, shuffled.
- **Story order.** The four stories are shuffled into a story order.
- **Session.** The sequence is:
  - the six pre-session frames;
  - each story as one block: `start-recording`, its twelve trial frames, then
    `rest` after every story but the last;
  - `exit-survey`.

The model has one Dafny module per part of the program:

- `Random`: the helpers `getRandomInt`, `getRandomVersion`,
  `getOppositeVersion` and `shuffle`.
- `Catalogue`: the four stimulus-pairing tables, `available_buttons` and the
  identifiers of the static frames.
- `Trials`: trial identifiers and trial frame records.
- `Versions`: the version-assignment loop.
- `Story`: the per-story loop. The source has four copies of this loop; the
  model has one, parameterised by story family.
- `Session`: the sequencing loop.
- `Generator`: `generateProtocol` itself.
- `Seqs` and `Wrappers`: sequence helpers and the `Option`/`Result` types.

`Math.random` becomes an injected stream of draws `rand: nat -> nat`. The
`t`-th call returns `rand(t) / 2^53`, and every method threads a cursor `pos`
through the stream.

`GenerateProtocol` is proved against three predicates:

- `FramesOk`:
  - the frame map has 61 keys: 13 static and 48 trial keys;
  - Ask1 and Promise1 get the versions of draws `2k` and `2k + 1`;
  - each trial exists in exactly one version;
  - the two stories of a pair carry opposite versions;
  - every trial record carries the stimuli its pairing names, and its four
    choice slots show that pairing's button set.
- `SequenceOk`:
  - the sequence has 62 entries;
  - `start-recording`, `rest` and `exit-survey` stand exactly at their fixed
    positions;
  - block `i` is one whole story, and never the `i`-th story of the unshuffled
    story order;
  - only the two markers repeat;
  - every entry is a key of the frame map.
- `OrderedFrom`, which ties the sequence to the draws. Let `perm` be the
  story-order shuffle of the indices `[0, 1, 2, 3]`, starting at draw 104. Then
  block `i` is the story of family `perm[i]`, and it asks its conditions in the
  order of that family's `QSequence` shuffle, starting at draw `12 + 5 * perm[i]`.
  Any other reading of the block agrees with this one (`OrderedFromDetermines`).

Two consequences of the code are worth spelling out:

- **`shuffle` is Sattolo's variant of the Fisher–Yates shuffle.** The comment
  above `shuffle` (lines 49-50) says it returns the elements "in random order",
  and it cites a Stack Overflow answer for the algorithm. But line 54 draws the
  swap partner `j` from `[0, i)`. A uniform Fisher–Yates shuffle would draw it
  from `[0, i]`. With `[0, i)`, no item of two or more distinct items ever
  stays at its own index (`ShuffledDeranges`). So:
  - no question is ever asked in its initial `QSequence` slot;
  - the Ask1 story never comes first in the session.
- **Sequence entries repeat.** The sequencing loop (lines 1694-1713) appends
  `start-recording` four times and `rest` three times. Every other entry
  occurs once: only those two markers repeat (`OnlyMarkersRepeat`).

## Model

| member | source | states |
|---|---|---|
| Random.RandomInt | protocol_generator_dec_2021.js:72-74 | a draw scaled to `max` is below `max` (and 0 for `max` = 0) |
| Random.RandomVersionReachesBoth | protocol_generator_dec_2021.js:77-84 | both A and B are produced by some valid draw |
| Random.Opposite | protocol_generator_dec_2021.js:87-93 | the opposite version always differs from its argument |
| Random.OppositeInvolutive | protocol_generator_dec_2021.js:87-93 | taking the opposite twice gives back the original version |
| Random.Shuffle | protocol_generator_dec_2021.js:51-60 | the swap loop on a copy of the input yields `Shuffled(s, rand, pos)` and consumes `|s| - 1` draws (none for 0 or 1 items) |
| Random.ShuffledPermutes | protocol_generator_dec_2021.js:51-60 | the shuffle keeps the length and the multiset of elements |
| Random.ShuffledShort | protocol_generator_dec_2021.js:51-60 | sequences of 0 or 1 items come back unchanged |
| Random.ShuffledKeepsDistinct | protocol_generator_dec_2021.js:51-60 | pairwise-distinct input gives pairwise-distinct output |
| Random.ShuffledByIndex | protocol_generator_dec_2021.js:51-60 | because the swaps never look at the items, shuffling `s` gives `s` read at the positions that shuffling the index list `[0, ..., |s| - 1]` gives |
| Random.ShuffledDeranges | protocol_generator_dec_2021.js:51-60 | with `j` drawn from `[0, i)`, no element of a distinct sequence of length at least 2 stays at its index |
| Catalogue.ButtonTableWellFormed | protocol_generator_dec_2021.js:960-1117 | every button set in `available_buttons` lists four different images |
| Catalogue.ButtonSetsComplete | protocol_generator_dec_2021.js:595-1117 | every button-set key of every pairing (story, condition, version) is a key of `available_buttons`, bound to four different images |
| Catalogue.StaticFramesWellFormed | protocol_generator_dec_2021.js:121-555 | the 13 static frame keys are distinct, and the pre-session frames and the three markers are among them |
| Trials.TrialNameInjective | protocol_generator_dec_2021.js:1239-1240 | equal trial identifiers have the same story, condition, version and kind |
| Trials.TrialNameNotStatic | protocol_generator_dec_2021.js:1239-1240 | no trial identifier is a static frame key |
| Trials.ChoiceSlotsShowSet | protocol_generator_dec_2021.js:1247-1251 | slots `choices[0..3]` from a permutation of a button set are filled exactly up to the set's length, only with its images, and with all four for a four-image set |
| Versions.AssignVersions | protocol_generator_dec_2021.js:1159-1211 | all conditions get versions in all four objects: Ask1 and Promise1 from draws `2k` and `2k + 1` of the loop, Ask2 and Promise2 the opposite |
| Story.AssembleStory | protocol_generator_dec_2021.js:1229-1340 | succeeds exactly when every needed button set exists, and otherwise reports the first missing key; on success the 12 identifiers are pushed in `QSequence` order, both frames of every trial are recorded, the keys are the old keys plus the identifiers, other records are unchanged, and with four-image button sets the story uses 6 × 3 draws |
| Story.StoryIdsAre | protocol_generator_dec_2021.js:1229-1340 | when `QSequence` holds every condition, a story's identifiers are exactly its family's trial names at each condition's assigned version |
| Story.StoryIdsNotStatic | protocol_generator_dec_2021.js:1229-1340 | no story identifier is a static frame key |
| Story.StoryIdsDistinct | protocol_generator_dec_2021.js:1229-1340 | a story over distinct conditions pushes 12 distinct identifiers |
| Story.StoriesDisjoint | protocol_generator_dec_2021.js:1229-1688 | stories of two different families share no identifier |
| Session.SequenceSession | protocol_generator_dec_2021.js:1694-1715 | the nested concat loops build the pre-session frames, then start-recording + story + rest per story (no rest after the last), then exit-survey |
| Session.SessionEntries | protocol_generator_dec_2021.js:1694-1715 | the session has 62 entries and entry `p` is given by blocks of 14 after 6 pre-session entries |
| Session.SessionMarkers | protocol_generator_dec_2021.js:1694-1715 | start-recording stands exactly at 6, 20, 34, 48, rest exactly at 19, 33, 47 and exit-survey exactly at 61; story `i` entry `j` is at `7 + 14i + j` |
| Session.OnlyMarkersRepeat | protocol_generator_dec_2021.js:1694-1715 | for distinct, disjoint, non-static stories, any entry that occurs twice is start-recording or rest |
| Session.SessionEntriesFrom | protocol_generator_dec_2021.js:1694-1715 | every entry is a static frame key or an identifier of one of the stories |
| Generator.ShuffledPlan | protocol_generator_dec_2021.js:1213-1217 | the shuffled `QSequence` lists every condition once, and never a condition at its initial index |
| Generator.PlanStories | protocol_generator_dec_2021.js:1121-1217 | the four version objects are complete and shuffled as above, with the versions of the draws and the pairs opposite; version object `m` holds the `QSequence` shuffle of the conditions starting at draw `12 + 5m`; it consumes `12 + 4 * 5` draws |
| Generator.ButtonsPresent | protocol_generator_dec_2021.js:1247 | no story's `available_buttons` lookup can miss |
| Generator.BuildStory | protocol_generator_dec_2021.js:1225-1688 | each story loop extends the frame map so that the static records stay untouched, the keys are the static ones plus all stories' identifiers, and all trial records of the stories so far hold; each story uses exactly 18 draws |
| Generator.FinalTrials | protocol_generator_dec_2021.js:1159-1688 | a trial frame is in the final map exactly when its version is the one its story's version object assigns |
| Generator.OneVersionEach | protocol_generator_dec_2021.js:1159-1211 | each trial exists in version A or version B, never both |
| Generator.OppositeKeys | protocol_generator_dec_2021.js:1159-1211 | Ask1 has a trial in version `v` exactly when Ask2 has it in the opposite version (likewise Promise1 and Promise2) |
| Generator.FinalRecords | protocol_generator_dec_2021.js:1229-1688 | every story's trial frames are recorded with their pairing's stimuli and button set |
| Generator.FinalKeyCount | protocol_generator_dec_2021.js:1336-1337 | after the four stories the frame map has exactly 61 keys |
| Generator.StoryOrderMoves | protocol_generator_dec_2021.js:1691-1692 | the shuffled story order lists each story once, each at an index other than its own |
| Generator.StoryOrderFacts | protocol_generator_dec_2021.js:1691-1692 | the shuffled story order is four distinct, disjoint stories of 12 non-static identifiers, each moved off its index |
| Generator.FramesFacts | protocol_generator_dec_2021.js:1119-1688 | the final frame map meets `FramesOk` |
| Generator.SequenceFacts | protocol_generator_dec_2021.js:1691-1715 | the sequence built from the shuffled story order meets `SequenceOk` |
| Generator.StoryPermReads | protocol_generator_dec_2021.js:1691-1692 | the shuffled story order is the four stories read at the positions of the shuffled index list `perm` |
| Generator.BlockOrderedAt | protocol_generator_dec_2021.js:1694-1715 | if story order slot `i` holds the story of family `m`, block `i` of the sequence presents family `m` in that story's `QSequence` order |
| Generator.SequenceOrdered | protocol_generator_dec_2021.js:1691-1715 | when version object `m` holds the `QSequence` shuffle from draw `12 + 5m`, the sequence of the story order shuffled from draw `pos` meets `OrderedFrom(sequence, rand, pos)` |
| Generator.BlockFromUnique | protocol_generator_dec_2021.js:1239-1240 | two readings of a block as a story have the same family and the same condition order |
| Generator.StoryPermAllZero | protocol_generator_dec_2021.js:1691-1692 | when every draw is 0, the story order is Ask2, Promise1, Promise2, Ask1 |
| Generator.OrderedFromDetermines | protocol_generator_dec_2021.js:1691-1715 | in an ordered sequence, any reading of block `i` as a story has family `perm[i]` and that family's `QSequence` shuffle as its order |
| Generator.GenerateProtocol | protocol_generator_dec_2021.js:1-1722 | never fails; the returned frames meet `FramesOk` and the returned sequence meets `SequenceOk`; and it meets `OrderedFrom` from draw 104 (after 12 coin tosses, 4 × 5 `QSequence` draws and 24 × 3 button draws), as the source's order of `Math.random` calls fixes: block `i` is the story of family `perm[i]`, where `perm` is the shuffle of `[0, 1, 2, 3]` from draw 104, and it asks its conditions in that family's `QSequence` order |

## Left out

- The adult-age check (lines 103-118) is left out. It sets `prompt_only_adults`, which nothing in the generator reads; it needs a clock and the child's birthday.
- Floating-point rounding is not modelled. `Math.floor(Math.random() * max)` is modelled as the exact `u * max / 2^53` on an integer draw `u`.
- The deep copy in `shuffle` (`Ember.$.extend`) becomes a plain copy of the sequence. The elements are strings or lists of strings that are never mutated afterwards.
- `pop_first` and `pop_random` are not modelled. Nothing calls them.
- Static frame contents (lines 123-550) are opaque. Each becomes `Static(name)`: only its key matters to the generator.
- Trial records keep only the fields that vary between trials: audio, image and choice sources. The constant rendering fields (kind, baseDir, audio types, flags, parent text) are left out.
- The `console.log` of the sequence (line 1716) is output only and is left out.
- The `child` and `pastSessions` parameters are not used by anything modelled. `child` feeds only the age check.
- Session.SequenceSession requires four stories of twelve identifiers, because the source's inner loop reads `story[j]` for `j < 12` regardless of length. The generator always meets this requirement.
