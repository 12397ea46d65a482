/** generateProtocol: assigns counterbalanced versions, shuffles each story's condition
    order, builds the four stories into the frame map, shuffles the story order and
    sequences the session. */
module Generator {
  import opened Seqs
  import opened Random
  import opened Catalogue
  import opened Trials
  import opened Versions
  import opened Story
  import opened Session

  /** What generateProtocol returns: the frame dictionary and the frame sequence. */
  datatype Protocol = Protocol(frames: map<string, Frame>, sequence: seq<string>)

  function FamilyIndex(f: Family): (m: nat)
    ensures m < 4
  {
    match f
    case Ask1 => 0
    case Ask2 => 1
    case Promise1 => 2
    case Promise2 => 3
  }

  /** The families in the order their stories are built and listed in storyOrder. */
  function FamilyAt(m: nat): (f: Family)
    requires m < 4
    ensures FamilyIndex(f) == m
  {
    if m == 0 then Ask1 else if m == 1 then Ask2 else if m == 2 then Promise1 else Promise2
  }

  /** The frame map before any story: each static identifier bound to its opaque record. */
  function InitialFrames(): map<string, Frame>
  {
    map x | x in StaticFrameNames :: Static(x)
  }

  /** A version object after version assignment and the QSequence shuffle: every
      condition has a version, QSequence lists each condition once, and no condition
      stays at its initial index. */
  ghost predicate Planned(qvs: QuestionVersions)
  {
    && Ready(qvs)
    && (forall c: Condition :: c in qvs.versions && c in qvs.qSequence)
    && Distinct(qvs.qSequence)
    && forall k :: 0 <= k < 6 ==> qvs.qSequence[k] != ConditionAt(k)
  }

  /** The four version objects, indexed like FamilyAt. */
  ghost predicate Plan(plan: seq<QuestionVersions>)
  {
    |plan| == 4 && forall m {:trigger plan[m]} :: 0 <= m < 4 ==> Planned(plan[m])
  }

  lemma ShuffledPlan(versions: map<Condition, Version>, rand: nat -> nat, pos: nat)
    requires ValidRandom(rand)
    requires forall c: Condition :: c in versions
    ensures Planned(QuestionVersions(versions, Shuffled(Conditions, rand, pos)))
  {
    var qs := Shuffled(Conditions, rand, pos);
    ShuffledPermutes(Conditions, rand, pos);
    assert Distinct(Conditions);
    ShuffledKeepsDistinct(Conditions, rand, pos);
    ShuffledDeranges(Conditions, rand, pos);
    forall c: Condition
      ensures c in qs
    {
      assert Conditions[IndexOf(c)] == c;
      assert c in multiset(Conditions);
    }
    forall k | 0 <= k < 6
      ensures qs[k] != ConditionAt(k)
    {
      assert Conditions[k] == ConditionAt(k);
    }
  }

  /** Every button set a story needs is in the button table, with four images. */
  lemma ButtonsPresent(f: Family, qvs: QuestionVersions)
    requires Ready(qvs)
    ensures forall k :: 0 <= k < 6 ==> StimulusAt(f, qvs, k).buttonSet in AvailableButtons
    ensures forall k :: 0 <= k < 6 ==> |AvailableButtons[StimulusAt(f, qvs, k).buttonSet]| == 4
  {
    forall k | 0 <= k < 6
      ensures StimulusAt(f, qvs, k).buttonSet in AvailableButtons
      ensures |AvailableButtons[StimulusAt(f, qvs, k).buttonSet]| == 4
    {
      ButtonSetsComplete(f, qvs.qSequence[k], qvs.versions[qvs.qSequence[k]]);
    }
  }

  /** The frame map after the first n stories (families FamilyAt(0), ..., FamilyAt(n - 1)):
      its keys are the static identifiers and the stories' identifiers, the static
      records are untouched, and every condition's two trial frames are recorded with
      the version the story's version object gives it. */
  ghost predicate Stage(frames: map<string, Frame>, plan: seq<QuestionVersions>, stories: seq<seq<string>>, n: nat)
    requires Plan(plan) && n <= 4
  {
    && |stories| == n
    && (forall m :: 0 <= m < n ==> StoryIds(stories[m], FamilyAt(m), plan[m]))
    && (forall x :: x in frames <==> x in StaticFrameNames || x in Flatten(stories))
    && (forall x :: x in StaticFrameNames ==> frames[x] == Static(x))
    && (forall m, c :: 0 <= m < n ==> TrialFramesOk(frames, FamilyAt(m), c, plan[m].versions[c], AvailableButtons))
  }

  lemma StageInitial(plan: seq<QuestionVersions>)
    requires Plan(plan)
    ensures Stage(InitialFrames(), plan, [], 0)
  {
  }

  /** Recording the trial frames of condition c keeps the other trials' frames. */
  lemma TrialFramesKept(frames: map<string, Frame>, frames': map<string, Frame>, ids: seq<string>,
                        f: Family, c: Condition, v: Version)
    requires TrialFramesOk(frames, f, c, v, AvailableButtons)
    requires TrialName(f, c, v, ExpositionTrial) !in ids && TrialName(f, c, v, QuestionTrial) !in ids
    requires forall x :: x in frames ==> x in frames'
    requires forall x :: x in frames && x !in ids ==> frames'[x] == frames[x]
    ensures TrialFramesOk(frames', f, c, v, AvailableButtons)
  {
  }

  /** A story that records all of its trials records one trial per condition. */
  lemma StoryRecordsAll(frames: map<string, Frame>, f: Family, qvs: QuestionVersions)
    requires Planned(qvs)
    requires forall k :: 0 <= k < 6 ==> TrialRecorded(frames, f, qvs, AvailableButtons, k)
    ensures forall c :: TrialFramesOk(frames, f, c, qvs.versions[c], AvailableButtons)
  {
    forall c: Condition
      ensures TrialFramesOk(frames, f, c, qvs.versions[c], AvailableButtons)
    {
      assert c in qvs.qSequence;
      var k :| 0 <= k < 6 && qvs.qSequence[k] == c;
      assert TrialRecorded(frames, f, qvs, AvailableButtons, k);
    }
  }

  /** Building story n keeps the records of the earlier stories. */
  lemma StageKeepsRecords(frames: map<string, Frame>, plan: seq<QuestionVersions>, stories: seq<seq<string>>, n: nat,
                          built: Assembled, m: nat, c: Condition)
    requires Plan(plan) && m < n < 4
    requires Stage(frames, plan, stories, n)
    requires StoryIds(built.ids, FamilyAt(n), plan[n])
    requires forall x :: x in built.frames <==> x in frames || x in built.ids
    requires forall x :: x in frames && x !in built.ids ==> built.frames[x] == frames[x]
    ensures TrialFramesOk(built.frames, FamilyAt(m), c, plan[m].versions[c], AvailableButtons)
  {
    var f, v := FamilyAt(m), plan[m].versions[c];
    if TrialName(f, c, v, ExpositionTrial) in built.ids {
      StoryIdOwn(built.ids, FamilyAt(n), plan[n], f, c, v, ExpositionTrial);
    }
    if TrialName(f, c, v, QuestionTrial) in built.ids {
      StoryIdOwn(built.ids, FamilyAt(n), plan[n], f, c, v, QuestionTrial);
    }
    TrialFramesKept(frames, built.frames, built.ids, f, c, v);
  }

  /** Building story n of family FamilyAt(n) advances the stage by one. */
  lemma StageStep(frames: map<string, Frame>, plan: seq<QuestionVersions>, stories: seq<seq<string>>, n: nat,
                  built: Assembled)
    requires Plan(plan) && n < 4
    requires Stage(frames, plan, stories, n)
    requires StoryIds(built.ids, FamilyAt(n), plan[n])
    requires forall k :: 0 <= k < 6 ==> TrialRecorded(built.frames, FamilyAt(n), plan[n], AvailableButtons, k)
    requires forall x :: x in built.frames <==> x in frames || x in built.ids
    requires forall x :: x in frames && x !in built.ids ==> built.frames[x] == frames[x]
    ensures Stage(built.frames, plan, stories + [built.ids], n + 1)
  {
    var stories' := stories + [built.ids];
    var f := FamilyAt(n);
    assert forall m :: 0 <= m < n ==> stories'[m] == stories[m];
    FlattenAppend(stories, built.ids);
    StoryIdsNotStatic(built.ids, f, plan[n]);
    StageRecords(frames, plan, stories, n, built);
    assert |stories'| == n + 1;
    assert (forall m :: 0 <= m < n + 1 ==> StoryIds(stories'[m], FamilyAt(m), plan[m]));
    assert (forall x :: x in built.frames <==> x in StaticFrameNames || x in Flatten(stories'));
    assert (forall x :: x in StaticFrameNames ==> built.frames[x] == Static(x));
  }

  /** Building story n records its trials and keeps the earlier stories' records. */
  lemma StageRecords(frames: map<string, Frame>, plan: seq<QuestionVersions>, stories: seq<seq<string>>, n: nat,
                     built: Assembled)
    requires Plan(plan) && n < 4
    requires Stage(frames, plan, stories, n)
    requires StoryIds(built.ids, FamilyAt(n), plan[n])
    requires forall k :: 0 <= k < 6 ==> TrialRecorded(built.frames, FamilyAt(n), plan[n], AvailableButtons, k)
    requires forall x :: x in built.frames <==> x in frames || x in built.ids
    requires forall x :: x in frames && x !in built.ids ==> built.frames[x] == frames[x]
    ensures forall m, c :: 0 <= m < n + 1 ==> TrialFramesOk(built.frames, FamilyAt(m), c, plan[m].versions[c], AvailableButtons)
  {
    StoryRecordsAll(built.frames, FamilyAt(n), plan[n]);
    forall m, c | 0 <= m < n
      ensures TrialFramesOk(built.frames, FamilyAt(m), c, plan[m].versions[c], AvailableButtons)
    {
      StageKeepsRecords(frames, plan, stories, n, built, m, c);
    }
  }

  /** Builds one story into the frame map and advances the stage; the story cannot fail
      because every button set its pairings name is in the table. */
  method BuildStory(frames: map<string, Frame>, plan: seq<QuestionVersions>, stories: seq<seq<string>>,
                    n: nat, rand: nat -> nat, pos: nat)
    returns (ids: seq<string>, frames': map<string, Frame>, next: nat)
    requires ValidRandom(rand)
    requires Plan(plan) && n < 4
    requires Stage(frames, plan, stories, n)
    ensures Stage(frames', plan, stories + [ids], n + 1)
    ensures next == pos + 6 * ShuffleDraws(4)
  {
    ButtonsPresent(FamilyAt(n), plan[n]);
    var r := AssembleStory(FamilyAt(n), plan[n], AvailableButtons, frames, rand, pos);
    StageStep(frames, plan, stories, n, r.value);
    ids, frames', next := r.value.ids, r.value.frames, r.value.next;
  }

  /** A trial frame of family f is in the map exactly for the version f's version
      object gives the condition. */
  ghost predicate VersionKeys(frames: map<string, Frame>, plan: seq<QuestionVersions>)
    requires Plan(plan)
  {
    forall f, c, v, kind :: TrialName(f, c, v, kind) in frames <==> v == plan[FamilyIndex(f)].versions[c]
  }

  lemma FinalTrials(frames: map<string, Frame>, plan: seq<QuestionVersions>, stories: seq<seq<string>>)
    requires Plan(plan) && Stage(frames, plan, stories, 4)
    ensures VersionKeys(frames, plan)
  {
    forall f, c, v, kind
      ensures TrialName(f, c, v, kind) in frames <==> v == plan[FamilyIndex(f)].versions[c]
    {
      var x := TrialName(f, c, v, kind);
      if x in frames {
        TrialNameNotStatic(f, c, v, kind);
        InFlatten(stories, x);
        var m :| 0 <= m < 4 && x in stories[m];
        StoryIdOwn(stories[m], FamilyAt(m), plan[m], f, c, v, kind);
      }
      var m := FamilyIndex(f);
      assert FamilyAt(m) == f;
      StoryIdCovers(stories[m], f, plan[m], c, kind);
    }
  }

  /** Each trial exists in exactly one of its two versions. */
  lemma OneVersionEach(frames: map<string, Frame>, plan: seq<QuestionVersions>)
    requires Plan(plan) && VersionKeys(frames, plan)
    ensures forall f, c, kind :: TrialName(f, c, A, kind) in frames <==> TrialName(f, c, B, kind) !in frames
  {
  }

  /** Families f and f' carry opposite versions of every condition. */
  lemma OppositeKeys(frames: map<string, Frame>, plan: seq<QuestionVersions>, f: Family, f': Family)
    requires Plan(plan) && VersionKeys(frames, plan)
    requires forall c :: plan[FamilyIndex(f')].versions[c] == Opposite(plan[FamilyIndex(f)].versions[c])
    ensures forall c, v, kind :: TrialName(f, c, v, kind) in frames <==> TrialName(f', c, Opposite(v), kind) in frames
  {
    forall c, v, kind
      ensures TrialName(f, c, v, kind) in frames <==> TrialName(f', c, Opposite(v), kind) in frames
    {
      OppositeInvolutive(v);
      OppositeInvolutive(plan[FamilyIndex(f)].versions[c]);
    }
  }

  /** Every family's trials are recorded in the final map with their versions. */
  lemma FinalRecords(frames: map<string, Frame>, plan: seq<QuestionVersions>, stories: seq<seq<string>>)
    requires Plan(plan) && Stage(frames, plan, stories, 4)
    ensures forall f, c :: TrialFramesOk(frames, f, c, plan[FamilyIndex(f)].versions[c], AvailableButtons)
  {
    forall f, c
      ensures TrialFramesOk(frames, f, c, plan[FamilyIndex(f)].versions[c], AvailableButtons)
    {
      var m := FamilyIndex(f);
      assert FamilyAt(m) == f;
      assert TrialFramesOk(frames, FamilyAt(m), c, plan[m].versions[c], AvailableButtons);
    }
  }

  /** The record of a trial that is in the final map is the one its story wrote. */
  lemma FinalRecordsByName(frames: map<string, Frame>, plan: seq<QuestionVersions>)
    requires Plan(plan) && VersionKeys(frames, plan)
    requires forall f, c :: TrialFramesOk(frames, f, c, plan[FamilyIndex(f)].versions[c], AvailableButtons)
    ensures forall f, c, v :: TrialName(f, c, v, ExpositionTrial) in frames ==> TrialFramesOk(frames, f, c, v, AvailableButtons)
  {
    forall f, c, v | TrialName(f, c, v, ExpositionTrial) in frames
      ensures TrialFramesOk(frames, f, c, v, AvailableButtons)
    {
      assert v == plan[FamilyIndex(f)].versions[c];
    }
  }

  /** After the four stories the frame map holds the 13 static keys and 48 trial keys. */
  lemma FinalKeyCount(frames: map<string, Frame>, plan: seq<QuestionVersions>, stories: seq<seq<string>>)
    requires Plan(plan) && Stage(frames, plan, stories, 4)
    ensures |frames| == 61
  {
    StaticFramesWellFormed();
    forall m | 0 <= m < 4
      ensures Distinct(stories[m]) && |stories[m]| == 12
    {
      StoryIdsDistinct(stories[m], FamilyAt(m), plan[m]);
    }
    forall m, m' | 0 <= m < m' < 4
      ensures forall x :: x in stories[m] ==> x !in stories[m']
    {
      StoriesDisjoint(stories[m], FamilyAt(m), plan[m], stories[m'], FamilyAt(m'), plan[m']);
    }
    DistinctFlatten(stories, 12);
    forall x | x in Flatten(stories)
      ensures x !in StaticFrameNames
    {
      InFlatten(stories, x);
      var m :| 0 <= m < 4 && x in stories[m];
      StoryIdsNotStatic(stories[m], FamilyAt(m), plan[m]);
    }
    DistinctConcat(StaticFrameNames, Flatten(stories));
    var all := StaticFrameNames + Flatten(stories);
    DistinctCardinality(all);
    assert frames.Keys == set x | x in all;
  }

  /** The four stories are pairwise different and share no identifier. */
  lemma StoriesApart(plan: seq<QuestionVersions>, stories: seq<seq<string>>)
    requires Plan(plan) && |stories| == 4
    requires forall m :: 0 <= m < 4 ==> StoryIds(stories[m], FamilyAt(m), plan[m])
    ensures Distinct(stories)
    ensures forall m, m' :: 0 <= m < 4 && 0 <= m' < 4 && m != m' ==> forall x :: x in stories[m] ==> x !in stories[m']
  {
    forall m, m' | 0 <= m < 4 && 0 <= m' < 4 && m != m'
      ensures forall x :: x in stories[m] ==> x !in stories[m']
    {
      StoriesDisjoint(stories[m], FamilyAt(m), plan[m], stories[m'], FamilyAt(m'), plan[m']);
    }
    forall m, m' | 0 <= m < m' < 4
      ensures stories[m] != stories[m']
    {
      assert stories[m][0] in stories[m];
    }
  }

  /** Each entry of the shuffled story order is one of the stories, never the one at
      its own index. */
  lemma StoryOrderMoves<T>(stories: seq<T>, rand: nat -> nat, pos: nat)
    requires ValidRandom(rand) && |stories| == 4 && Distinct(stories)
    ensures |Shuffled(stories, rand, pos)| == 4 && Distinct(Shuffled(stories, rand, pos))
    ensures forall i :: 0 <= i < 4 ==> exists m :: 0 <= m < 4 && m != i && Shuffled(stories, rand, pos)[i] == stories[m]
  {
    var order := Shuffled(stories, rand, pos);
    ShuffledPermutes(stories, rand, pos);
    ShuffledKeepsDistinct(stories, rand, pos);
    ShuffledDeranges(stories, rand, pos);
    forall i | 0 <= i < 4
      ensures exists m :: 0 <= m < 4 && m != i && order[i] == stories[m]
    {
      assert order[i] in multiset(stories);
      var m :| 0 <= m < 4 && order[i] == stories[m];
    }
  }

  /** The shuffled story order is a well-formed input of the sequencing loop. */
  lemma StoryOrderFacts(plan: seq<QuestionVersions>, stories: seq<seq<string>>, rand: nat -> nat, pos: nat)
    requires ValidRandom(rand) && Plan(plan) && |stories| == 4
    requires forall m :: 0 <= m < 4 ==> StoryIds(stories[m], FamilyAt(m), plan[m])
    ensures Stories(Shuffled(stories, rand, pos)) && DistinctStories(Shuffled(stories, rand, pos))
    ensures forall i :: 0 <= i < 4 ==> exists m :: 0 <= m < 4 && m != i && Shuffled(stories, rand, pos)[i] == stories[m]
  {
    var order := Shuffled(stories, rand, pos);
    StoriesApart(plan, stories);
    StoryOrderMoves(stories, rand, pos);
    forall i | 0 <= i < 4
      ensures |order[i]| == 12 && Distinct(order[i]) && forall x :: x in order[i] ==> x !in StaticFrameNames
    {
      var m :| 0 <= m < 4 && m != i && order[i] == stories[m];
      StoryIdsDistinct(stories[m], FamilyAt(m), plan[m]);
      StoryIdsNotStatic(stories[m], FamilyAt(m), plan[m]);
    }
    forall i, i', j, j' | 0 <= i < 4 && 0 <= i' < 4 && i != i' && 0 <= j < 12 && 0 <= j' < 12
      ensures order[i][j] != order[i'][j']
    {
      var m :| 0 <= m < 4 && m != i && order[i] == stories[m];
      var m' :| 0 <= m' < 4 && m' != i' && order[i'] == stories[m'];
      assert order[i] != order[i'];
      assert order[i][j] in stories[m];
    }
  }

  /** Start-recording, rest and exit-survey stand at their fixed positions in a
      62-entry sequence that opens with the pre-session identifiers. */
  ghost predicate SessionShaped(s: seq<string>)
  {
    && |s| == 62
    && s[..6] == PreSession
    && (forall p :: 0 <= p < 62 ==> (s[p] == StartRecording <==> p in {6, 20, 34, 48}))
    && (forall p :: 0 <= p < 62 ==> (s[p] == Rest <==> p in {19, 33, 47}))
    && (forall p :: 0 <= p < 62 ==> (s[p] == ExitSurvey <==> p == 61))
  }

  /** The twelve entries after the i-th start-recording present conditions qs of family
      f with the given versions: an exposition and then a question identifier per
      condition, over six distinct conditions none of which stands at its index in
      Conditions. */
  ghost predicate BlockFrom(s: seq<string>, i: nat, f: Family, qs: seq<Condition>, versions: map<Condition, Version>)
    requires |s| == 62 && i < 4
  {
    && |qs| == 6 && Distinct(qs)
    && forall k :: 0 <= k < 6 ==>
         && qs[k] in versions && qs[k] != ConditionAt(k)
         && s[7 + 14 * i + 2 * k] == TrialName(f, qs[k], versions[qs[k]], ExpositionTrial)
         && s[8 + 14 * i + 2 * k] == TrialName(f, qs[k], versions[qs[k]], QuestionTrial)
  }

  /** The twelve entries after the i-th start-recording are one story of family f. */
  ghost predicate StoryBlock(s: seq<string>, i: nat, f: Family)
    requires |s| == 62 && i < 4
  {
    exists qs: seq<Condition>, versions: map<Condition, Version> :: BlockFrom(s, i, f, qs, versions)
  }

  /** Block i holds a whole story of a family other than the i-th of storyOrder before
      its shuffle. */
  ghost predicate BlockMoved(s: seq<string>, i: nat)
    requires |s| == 62 && i < 4
  {
    exists f :: f != FamilyAt(i) && StoryBlock(s, i, f)
  }

  lemma BlockOfStory(s: seq<string>, i: nat, ids: seq<string>, f: Family, qvs: QuestionVersions)
    requires |s| == 62 && i < 4 && Planned(qvs) && StoryIds(ids, f, qvs)
    requires forall j :: 0 <= j < 12 ==> s[7 + 14 * i + j] == ids[j]
    ensures BlockFrom(s, i, f, qvs.qSequence, qvs.versions) && StoryBlock(s, i, f)
  {
    forall k | 0 <= k < 6
      ensures s[7 + 14 * i + 2 * k] == ids[2 * k] && s[8 + 14 * i + 2 * k] == ids[2 * k + 1]
    {
      assert s[7 + 14 * i + (2 * k + 1)] == ids[2 * k + 1];
    }
    assert BlockFrom(s, i, f, qvs.qSequence, qvs.versions);
  }

  /** What generateProtocol promises about the frame map, given the draws. */
  ghost predicate FramesOk(frames: map<string, Frame>, rand: nat -> nat)
    requires ValidRandom(rand)
  {
    && |frames| == 61
    && (forall x :: x in StaticFrameNames ==> x in frames && frames[x] == Static(x))
    && (forall k, kind :: 0 <= k < 6 ==>
          && TrialName(Ask1, ConditionAt(k), RandomVersion(rand(2 * k)), kind) in frames
          && TrialName(Promise1, ConditionAt(k), RandomVersion(rand(2 * k + 1)), kind) in frames)
    && (forall f, c, kind :: TrialName(f, c, A, kind) in frames <==> TrialName(f, c, B, kind) !in frames)
    && (forall c, v, kind :: TrialName(Ask1, c, v, kind) in frames <==> TrialName(Ask2, c, Opposite(v), kind) in frames)
    && (forall c, v, kind :: TrialName(Promise1, c, v, kind) in frames <==> TrialName(Promise2, c, Opposite(v), kind) in frames)
    && (forall f, c, v :: TrialName(f, c, v, ExpositionTrial) in frames ==> TrialFramesOk(frames, f, c, v, AvailableButtons))
  }

  /** What generateProtocol promises about the frame sequence. */
  ghost predicate SequenceOk(sequence: seq<string>, frames: map<string, Frame>)
  {
    && SessionShaped(sequence)
    && (forall i :: 0 <= i < 4 ==> BlockMoved(sequence, i))
    && (forall p, q :: 0 <= p < q < |sequence| && sequence[p] == sequence[q] ==>
          sequence[p] == StartRecording || sequence[p] == Rest)
    && (forall x :: x in sequence ==> x in frames)
  }

  /** Where the story-order shuffle starting at draw pos sends each index of
      [storyAsk1Seq, storyAsk2Seq, storyPromise1Seq, storyPromise2Seq]. */
  function StoryPerm(rand: nat -> nat, pos: nat): seq<nat>
    requires ValidRandom(rand)
  {
    Shuffled<nat>([0, 1, 2, 3], rand, pos)
  }

  /** Entry i of the shuffled story order is the story at index StoryPerm(rand, pos)[i]. */
  lemma StoryPermReads<T>(stories: seq<T>, rand: nat -> nat, pos: nat)
    requires ValidRandom(rand) && |stories| == 4
    ensures |StoryPerm(rand, pos)| == 4 && |Shuffled(stories, rand, pos)| == 4
    ensures forall i :: 0 <= i < 4 ==>
      StoryPerm(rand, pos)[i] < 4 && Shuffled(stories, rand, pos)[i] == stories[StoryPerm(rand, pos)[i]]
  {
    ShuffledByIndex(stories, [0, 1, 2, 3], rand, pos);
  }

  /** Block i is the story of family f, presenting the conditions in the order qs. */
  ghost predicate BlockOrdered(s: seq<string>, i: nat, f: Family, qs: seq<Condition>)
    requires |s| == 62 && i < 4
  {
    exists versions: map<Condition, Version> :: BlockFrom(s, i, f, qs, versions)
  }

  /** The story order is the one the story-order shuffle starting at draw pos gives:
      block i is the story FamilyAt(perm[i]) for the indices perm = [0, 1, 2, 3] so
      shuffled, and it presents its conditions in the order of that family's QSequence
      shuffle, which starts at draw 12 + 5 * perm[i]. */
  ghost predicate OrderedFrom(sequence: seq<string>, rand: nat -> nat, pos: nat)
    requires ValidRandom(rand)
  {
    var perm := StoryPerm(rand, pos);
    && |sequence| == 62 && |perm| == 4
    && forall i :: 0 <= i < 4 ==>
         && perm[i] < 4
         && BlockOrdered(sequence, i, FamilyAt(perm[i]), QOrder(rand, perm[i]))
  }

  /** The QSequence of story m: the shuffle of Conditions that starts at draw 12 + 5 * m,
      after the twelve coin tosses and the shuffles of the stories before it. */
  function QOrder(rand: nat -> nat, m: nat): seq<Condition>
    requires ValidRandom(rand)
  {
    Shuffled(Conditions, rand, 12 + ShuffleDraws(6) * m)
  }

  /** Version object m holds the QSequence shuffle of story m. */
  ghost predicate Ordered(plan: seq<QuestionVersions>, rand: nat -> nat)
    requires Plan(plan) && ValidRandom(rand)
  {
    forall m {:trigger plan[m]} :: 0 <= m < 4 ==> plan[m].qSequence == QOrder(rand, m)
  }

  /** Two readings of block i as a story agree on the family and the condition order. */
  lemma BlockFromUnique(s: seq<string>, i: nat, f: Family, qs: seq<Condition>, versions: map<Condition, Version>,
                        f': Family, qs': seq<Condition>, versions': map<Condition, Version>)
    requires |s| == 62 && i < 4
    requires BlockFrom(s, i, f, qs, versions) && BlockFrom(s, i, f', qs', versions')
    ensures f == f' && qs == qs'
  {
    forall k | 0 <= k < 6
      ensures f == f' && qs[k] == qs'[k]
    {
      TrialNameInjective(f, qs[k], versions[qs[k]], ExpositionTrial, f', qs'[k], versions'[qs'[k]], ExpositionTrial);
    }
    assert s[7 + 14 * i] == TrialName(f, qs[0], versions[qs[0]], ExpositionTrial);
    assert qs == qs';
  }

  /** In a sequence ordered from draw pos, whatever story block i is read as, its family is
      FamilyAt(perm[i]) and its condition order is that family's QSequence shuffle. */
  lemma OrderedFromDetermines(s: seq<string>, rand: nat -> nat, pos: nat, i: nat,
                              f: Family, qs: seq<Condition>, versions: map<Condition, Version>)
    requires ValidRandom(rand) && OrderedFrom(s, rand, pos) && i < 4
    requires BlockFrom(s, i, f, qs, versions)
    ensures StoryPerm(rand, pos)[i] < 4
    ensures f == FamilyAt(StoryPerm(rand, pos)[i]) && qs == QOrder(rand, StoryPerm(rand, pos)[i])
  {
    var m := StoryPerm(rand, pos)[i];
    var versions' :| BlockFrom(s, i, FamilyAt(m), QOrder(rand, m), versions');
    BlockFromUnique(s, i, f, qs, versions, FamilyAt(m), QOrder(rand, m), versions');
  }

  /** With every draw 0 the story-order shuffle gives Ask2, Promise1, Promise2, Ask1. */
  lemma StoryPermAllZero()
    ensures StoryPerm((t: nat) => 0, 104) == [1, 2, 3, 0]
  {
    var zero := (t: nat) => 0;
    assert RandomInt(zero(104), 3) == 0 && RandomInt(zero(105), 2) == 0 && RandomInt(zero(106), 1) == 0;
  }

  /** The versions the version loop assigned, as the plan carries them. */
  ghost predicate Drawn(plan: seq<QuestionVersions>, rand: nat -> nat)
    requires Plan(plan) && ValidRandom(rand)
  {
    && (forall k :: 0 <= k < 6 ==> plan[0].versions[ConditionAt(k)] == RandomVersion(rand(2 * k)))
    && (forall k :: 0 <= k < 6 ==> plan[2].versions[ConditionAt(k)] == RandomVersion(rand(2 * k + 1)))
    && (forall c :: plan[1].versions[c] == Opposite(plan[0].versions[c]))
    && (forall c :: plan[3].versions[c] == Opposite(plan[2].versions[c]))
  }

  lemma FramesFacts(frames: map<string, Frame>, plan: seq<QuestionVersions>, stories: seq<seq<string>>,
                    rand: nat -> nat)
    requires ValidRandom(rand) && Plan(plan) && Stage(frames, plan, stories, 4) && Drawn(plan, rand)
    ensures FramesOk(frames, rand)
  {
    FinalTrials(frames, plan, stories);
    FinalKeyCount(frames, plan, stories);
    OneVersionEach(frames, plan);
    OppositeKeys(frames, plan, Ask1, Ask2);
    OppositeKeys(frames, plan, Promise1, Promise2);
    FinalRecords(frames, plan, stories);
    FinalRecordsByName(frames, plan);
  }

  lemma SequenceFacts(frames: map<string, Frame>, plan: seq<QuestionVersions>, stories: seq<seq<string>>,
                      rand: nat -> nat, pos: nat, sequence: seq<string>)
    requires ValidRandom(rand) && Plan(plan) && Stage(frames, plan, stories, 4)
    requires Stories(Shuffled(stories, rand, pos)) && sequence == SessionSequence(Shuffled(stories, rand, pos))
    ensures SequenceOk(sequence, frames)
  {
    var storyOrder := Shuffled(stories, rand, pos);
    StoryOrderFacts(plan, stories, rand, pos);
    SessionMarkers(storyOrder);
    OnlyMarkersRepeat(storyOrder);
    SessionEntriesFrom(storyOrder);
    forall i | 0 <= i < 4
      ensures BlockMoved(sequence, i)
    {
      var m :| 0 <= m < 4 && m != i && storyOrder[i] == stories[m];
      BlockOfStory(sequence, i, stories[m], FamilyAt(m), plan[m]);
      assert FamilyIndex(FamilyAt(m)) != FamilyIndex(FamilyAt(i));
      assert FamilyAt(m) != FamilyAt(i) && StoryBlock(sequence, i, FamilyAt(m));
    }

    forall x | x in sequence
      ensures x in frames
    {
      var p :| 0 <= p < 62 && sequence[p] == x;
      if x !in StaticFrameNames {
        var i :| 0 <= i < 4 && x in storyOrder[i];
        var m :| 0 <= m < 4 && m != i && storyOrder[i] == stories[m];
        InFlatten(stories, x);
      }
    }
  }

  /** Block i of a session whose story order has story m of the plan at index i. */
  lemma BlockOrderedAt(plan: seq<QuestionVersions>, stories: seq<seq<string>>, order: seq<seq<string>>,
                       sequence: seq<string>, i: nat, m: nat)
    requires Plan(plan) && |stories| == 4 && i < 4 && m < 4
    requires StoryIds(stories[m], FamilyAt(m), plan[m])
    requires Stories(order) && order[i] == stories[m] && sequence == SessionSequence(order)
    ensures |sequence| == 62 && BlockOrdered(sequence, i, FamilyAt(m), plan[m].qSequence)
  {
    SessionBlocks(order);
    BlockOfStory(sequence, i, stories[m], FamilyAt(m), plan[m]);
  }

  /** Block i of the sequence is the story the shuffled indices put there, in its
      version object's QSequence order. */
  lemma SequenceOrdered(plan: seq<QuestionVersions>, stories: seq<seq<string>>,
                        rand: nat -> nat, pos: nat, sequence: seq<string>)
    requires ValidRandom(rand) && Plan(plan) && Ordered(plan, rand)
    requires |stories| == 4 && forall m :: 0 <= m < 4 ==> StoryIds(stories[m], FamilyAt(m), plan[m])
    requires Stories(Shuffled(stories, rand, pos)) && sequence == SessionSequence(Shuffled(stories, rand, pos))
    requires |sequence| == 62
    ensures OrderedFrom(sequence, rand, pos)
  {
    var storyOrder := Shuffled(stories, rand, pos);
    var perm := StoryPerm(rand, pos);
    StoryPermReads(stories, rand, pos);
    forall i | 0 <= i < 4
      ensures perm[i] < 4
      ensures BlockOrdered(sequence, i, FamilyAt(perm[i]), QOrder(rand, perm[i]))
    {
      var m := perm[i];
      BlockOrderedAt(plan, stories, storyOrder, sequence, i, m);
      assert plan[m].qSequence == QOrder(rand, m);
    }
  }

  /** The four version objects, built in order, hold the four QSequence shuffles. */
  lemma OrderedOf(plan: seq<QuestionVersions>, rand: nat -> nat)
    requires ValidRandom(rand) && Plan(plan)
    requires plan[0].qSequence == QOrder(rand, 0) && plan[1].qSequence == QOrder(rand, 1)
    requires plan[2].qSequence == QOrder(rand, 2) && plan[3].qSequence == QOrder(rand, 3)
    ensures Ordered(plan, rand)
  {
    forall m | 0 <= m < 4
      ensures plan[m].qSequence == QOrder(rand, m)
    {
      if m == 0 { } else if m == 1 { } else if m == 2 { } else { assert m == 3; }
    }
  }

  /** Packs a story's versions and shuffled QSequence, with what the shuffle guarantees. */
  lemma PlanOf(ask1: map<Condition, Version>, ask2: map<Condition, Version>,
               promise1: map<Condition, Version>, promise2: map<Condition, Version>,
               orders: seq<seq<Condition>>, rand: nat -> nat)
    requires ValidRandom(rand) && |orders| == 4
    requires Planned(QuestionVersions(ask1, orders[0])) && Planned(QuestionVersions(ask2, orders[1]))
    requires Planned(QuestionVersions(promise1, orders[2])) && Planned(QuestionVersions(promise2, orders[3]))
    requires forall k :: 0 <= k < 6 ==> ask1[ConditionAt(k)] == RandomVersion(rand(2 * k))
    requires forall k :: 0 <= k < 6 ==> promise1[ConditionAt(k)] == RandomVersion(rand(2 * k + 1))
    requires forall c :: c in ask1 && c in ask2 && ask2[c] == Opposite(ask1[c])
    requires forall c :: c in promise1 && c in promise2 && promise2[c] == Opposite(promise1[c])
    ensures var plan := [QuestionVersions(ask1, orders[0]), QuestionVersions(ask2, orders[1]),
                         QuestionVersions(promise1, orders[2]), QuestionVersions(promise2, orders[3])];
      Plan(plan) && Drawn(plan, rand)
  {
    var plan := [QuestionVersions(ask1, orders[0]), QuestionVersions(ask2, orders[1]),
                 QuestionVersions(promise1, orders[2]), QuestionVersions(promise2, orders[3])];
    forall m | 0 <= m < 4
      ensures Planned(plan[m])
    {
      if m == 0 { assert plan[m] == QuestionVersions(ask1, orders[0]); }
      else if m == 1 { assert plan[m] == QuestionVersions(ask2, orders[1]); }
      else if m == 2 { assert plan[m] == QuestionVersions(promise1, orders[2]); }
      else { assert plan[m] == QuestionVersions(promise2, orders[3]); }
    }
    assert plan[0].versions == ask1 && plan[1].versions == ask2;
    assert plan[2].versions == promise1 && plan[3].versions == promise2;
  }

  /** The version loop followed by the four QSequence shuffles, in source order. */
  method PlanStories(rand: nat -> nat) returns (plan: seq<QuestionVersions>, next: nat)
    requires ValidRandom(rand)
    ensures Plan(plan) && Drawn(plan, rand) && Ordered(plan, rand)
    ensures next == 12 + 4 * ShuffleDraws(6)
  {
    var ask1, ask2, promise1, promise2;
    ask1, ask2, promise1, promise2, next := AssignVersions(rand, 0);
    var drawn := next;
    var ask1Order, ask2Order, promise1Order, promise2Order;
    ask1Order, next := Shuffle(Conditions, rand, next);
    ShuffledPlan(ask1, rand, drawn);
    drawn := next;
    ask2Order, next := Shuffle(Conditions, rand, next);
    ShuffledPlan(ask2, rand, drawn);
    drawn := next;
    promise1Order, next := Shuffle(Conditions, rand, next);
    ShuffledPlan(promise1, rand, drawn);
    drawn := next;
    promise2Order, next := Shuffle(Conditions, rand, next);
    ShuffledPlan(promise2, rand, drawn);
    PlanOf(ask1, ask2, promise1, promise2, [ask1Order, ask2Order, promise1Order, promise2Order], rand);
    plan := [QuestionVersions(ask1, ask1Order), QuestionVersions(ask2, ask2Order),
             QuestionVersions(promise1, promise1Order), QuestionVersions(promise2, promise2Order)];
    assert ask1Order == QOrder(rand, 0) && ask2Order == QOrder(rand, 1);
    assert promise1Order == QOrder(rand, 2) && promise2Order == QOrder(rand, 3);
    OrderedOf(plan, rand);
  }

  /** generateProtocol: draws the versions, shuffles the four QSequences, builds the four
      stories in the order Ask1, Ask2, Promise1, Promise2, shuffles the story order and
      sequences the session. */
  method GenerateProtocol(rand: nat -> nat) returns (protocol: Protocol)
    requires ValidRandom(rand)
    ensures FramesOk(protocol.frames, rand)
    ensures SequenceOk(protocol.sequence, protocol.frames)
    ensures OrderedFrom(protocol.sequence, rand, 12 + 4 * ShuffleDraws(6) + 4 * 6 * ShuffleDraws(4))
  {
    var plan, next := PlanStories(rand);
    var frames := InitialFrames();
    StageInitial(plan);
    // stories collects storyAsk1Seq, storyAsk2Seq, storyPromise1Seq and storyPromise2Seq in turn
    var stories: seq<seq<string>> := [];
    var storySeq;
    storySeq, frames, next := BuildStory(frames, plan, stories, 0, rand, next);
    stories := stories + [storySeq];
    storySeq, frames, next := BuildStory(frames, plan, stories, 1, rand, next);
    stories := stories + [storySeq];
    storySeq, frames, next := BuildStory(frames, plan, stories, 2, rand, next);
    stories := stories + [storySeq];
    storySeq, frames, next := BuildStory(frames, plan, stories, 3, rand, next);
    stories := stories + [storySeq];

    var drawn := next;
    var storyOrder;
    storyOrder, next := Shuffle(stories, rand, next);
    StoryOrderFacts(plan, stories, rand, drawn);
    var sequence := SequenceSession(storyOrder);
    protocol := Protocol(frames, sequence);
    FramesFacts(frames, plan, stories, rand);
    SequenceFacts(frames, plan, stories, rand, drawn, sequence);
    SequenceOrdered(plan, stories, rand, drawn, sequence);
  }
}
