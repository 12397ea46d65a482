/** The per-story assembly; the four copies in the generator (Ask1, Ask2, Promise1,
    Promise2) differ only in the family, its pairing table and its version object. */
module Story {
  import opened Wrappers
  import opened Seqs
  import opened Random
  import opened Catalogue
  import opened Trials

  /** A story's version object (ask1QVs, ...): the version of each condition and the
      presentation order QSequence. */
  datatype QuestionVersions = QuestionVersions(versions: map<Condition, Version>, qSequence: seq<Condition>)

  /** What stops the generation: shuffle reading `.length` of an absent button set. */
  datatype Error = MissingButtonSet(key: string)

  /** What a story contributes: its identifiers, the frame map after its insertions,
      and the next unused draw. */
  datatype Assembled = Assembled(ids: seq<string>, frames: map<string, Frame>, next: nat)

  /** The version object the loop reads: six conditions in QSequence, each with a version. */
  ghost predicate Ready(qvs: QuestionVersions)
  {
    |qvs.qSequence| == 6 && forall k :: 0 <= k < 6 ==> qvs.qSequence[k] in qvs.versions
  }

  /** The condition, version and stimulus of the k-th trial of the story. */
  function StimulusAt(f: Family, qvs: QuestionVersions, k: nat): Stimulus
    requires Ready(qvs) && k < 6
  {
    Pairing(f, qvs.qSequence[k], qvs.versions[qvs.qSequence[k]])
  }

  function TrialId(f: Family, qvs: QuestionVersions, k: nat, kind: TrialKind): string
    requires Ready(qvs) && k < 6
  {
    TrialName(f, qvs.qSequence[k], qvs.versions[qvs.qSequence[k]], kind)
  }

  /** The identifiers a story pushes: for each condition of QSequence in order, its
      exposition identifier and then its question identifier. */
  ghost predicate StoryIds(ids: seq<string>, f: Family, qvs: QuestionVersions)
    requires Ready(qvs)
  {
    && |ids| == 12
    && forall k :: 0 <= k < 6 ==>
         ids[2 * k] == TrialId(f, qvs, k, ExpositionTrial) && ids[2 * k + 1] == TrialId(f, qvs, k, QuestionTrial)
  }

  /** The two frames of trial (f, c, v) are in the map: the exposition frame plays the
      story audio over the story image; the question frame plays the question audio
      with the story image and shows the trial's button set in its four slots. */
  ghost predicate TrialFramesOk(frames: map<string, Frame>, f: Family, c: Condition, v: Version,
                                buttons: map<string, seq<string>>)
  {
    var stim := Pairing(f, c, v);
    var e, q := TrialName(f, c, v, ExpositionTrial), TrialName(f, c, v, QuestionTrial);
    && e in frames && frames[e] == ExpositionRecord(stim)
    && q in frames && frames[q].Question?
    && frames[q].audio == stim.questionAudio && frames[q].image == stim.storyImage
    && stim.buttonSet in buttons && ChoicesFrom(frames[q].choices, buttons[stim.buttonSet])
  }

  ghost predicate TrialRecorded(frames: map<string, Frame>, f: Family, qvs: QuestionVersions,
                                buttons: map<string, seq<string>>, k: nat)
    requires Ready(qvs) && k < 6
  {
    TrialFramesOk(frames, f, qvs.qSequence[k], qvs.versions[qvs.qSequence[k]], buttons)
  }

  /** Writing the two frames of one trial records that trial. */
  lemma RecordTrialWrites(frames: map<string, Frame>, f: Family, c: Condition, v: Version,
                          buttons: map<string, seq<string>>, e: Frame, q: Frame)
    requires e == ExpositionRecord(Pairing(f, c, v))
    requires q.Question? && q.audio == Pairing(f, c, v).questionAudio && q.image == Pairing(f, c, v).storyImage
    requires Pairing(f, c, v).buttonSet in buttons && ChoicesFrom(q.choices, buttons[Pairing(f, c, v).buttonSet])
    ensures TrialFramesOk(frames[TrialName(f, c, v, ExpositionTrial) := e][TrialName(f, c, v, QuestionTrial) := q],
                          f, c, v, buttons)
  {
    if TrialName(f, c, v, ExpositionTrial) == TrialName(f, c, v, QuestionTrial) {
      TrialNameInjective(f, c, v, ExpositionTrial, f, c, v, QuestionTrial);
    }
  }

  /** Writing the two frames of one trial keeps the frames of every other trial. */
  lemma RecordTrialKeeps(frames: map<string, Frame>, f: Family, c: Condition, v: Version,
                         buttons: map<string, seq<string>>, e: Frame, q: Frame,
                         f': Family, c': Condition, v': Version)
    requires TrialFramesOk(frames, f', c', v', buttons)
    requires e == ExpositionRecord(Pairing(f, c, v))
    requires q.Question? && q.audio == Pairing(f, c, v).questionAudio && q.image == Pairing(f, c, v).storyImage
    requires Pairing(f, c, v).buttonSet in buttons && ChoicesFrom(q.choices, buttons[Pairing(f, c, v).buttonSet])
    ensures TrialFramesOk(frames[TrialName(f, c, v, ExpositionTrial) := e][TrialName(f, c, v, QuestionTrial) := q],
                          f', c', v', buttons)
  {
    var e', q' := TrialName(f', c', v', ExpositionTrial), TrialName(f', c', v', QuestionTrial);
    var ne, nq := TrialName(f, c, v, ExpositionTrial), TrialName(f, c, v, QuestionTrial);
    if e' == ne { TrialNameInjective(f', c', v', ExpositionTrial, f, c, v, ExpositionTrial); }
    if e' == nq { TrialNameInjective(f', c', v', ExpositionTrial, f, c, v, QuestionTrial); }
    if q' == ne { TrialNameInjective(f', c', v', QuestionTrial, f, c, v, ExpositionTrial); }
    if q' == nq { TrialNameInjective(f', c', v', QuestionTrial, f, c, v, QuestionTrial); }
  }

  /** The state of a story loop after `n` iterations, started from frame map `frames`:
      the first n trials are named in `ids` and recorded in `fr`, their button sets
      exist, and no other key of the map was touched. */
  ghost predicate Progress(frames: map<string, Frame>, f: Family, qvs: QuestionVersions,
                           buttons: map<string, seq<string>>, fr: map<string, Frame>, ids: seq<string>, n: nat)
    requires Ready(qvs) && n <= 6
  {
    && |ids| == 2 * n
    && (forall k :: 0 <= k < n ==>
         ids[2 * k] == TrialId(f, qvs, k, ExpositionTrial) && ids[2 * k + 1] == TrialId(f, qvs, k, QuestionTrial))
    && (forall k :: 0 <= k < n ==> StimulusAt(f, qvs, k).buttonSet in buttons)
    && (forall k :: 0 <= k < n ==> TrialRecorded(fr, f, qvs, buttons, k))
    && (forall x :: x in fr <==> x in frames || x in ids)
    && (forall x :: x in frames && x !in ids ==> fr[x] == frames[x])
  }

  /** The frame map with trial n's exposition and question records inserted. */
  function WithTrial(fr: map<string, Frame>, f: Family, qvs: QuestionVersions, n: nat, choices: seq<string>): map<string, Frame>
    requires Ready(qvs) && n < 6
  {
    var stim := StimulusAt(f, qvs, n);
    fr[TrialId(f, qvs, n, ExpositionTrial) := ExpositionRecord(stim)][TrialId(f, qvs, n, QuestionTrial) := QuestionRecord(stim, choices)]
  }

  /** Recording trial n keeps the records of trials 0 .. n - 1 and adds trial n's. */
  lemma ProgressRecords(f: Family, qvs: QuestionVersions, buttons: map<string, seq<string>>,
                        fr: map<string, Frame>, n: nat, choices: seq<string>)
    requires Ready(qvs) && n < 6
    requires forall k :: 0 <= k < n ==> TrialRecorded(fr, f, qvs, buttons, k)
    requires StimulusAt(f, qvs, n).buttonSet in buttons
    requires multiset(choices) == multiset(buttons[StimulusAt(f, qvs, n).buttonSet])
    ensures forall k :: 0 <= k < n + 1 ==> TrialRecorded(WithTrial(fr, f, qvs, n, choices), f, qvs, buttons, k)
  {
    var c := qvs.qSequence[n];
    var v := qvs.versions[c];
    var stim := StimulusAt(f, qvs, n);
    var e, q := ExpositionRecord(stim), QuestionRecord(stim, choices);
    var fr' := fr[TrialId(f, qvs, n, ExpositionTrial) := e][TrialId(f, qvs, n, QuestionTrial) := q];
    ChoiceSlotsShowSet(choices, buttons[stim.buttonSet]);
    forall k | 0 <= k < n
      ensures TrialRecorded(fr', f, qvs, buttons, k)
    {
      assert TrialRecorded(fr, f, qvs, buttons, k);
      RecordTrialKeeps(fr, f, c, v, buttons, e, q, f, qvs.qSequence[k], qvs.versions[qvs.qSequence[k]]);
    }
    RecordTrialWrites(fr, f, c, v, buttons, e, q);
  }

  /** Pushing trial n's two identifiers extends the identifier layout by one trial. */
  lemma ProgressIds(f: Family, qvs: QuestionVersions, ids: seq<string>, n: nat)
    requires Ready(qvs) && n < 6 && |ids| == 2 * n
    requires forall k :: 0 <= k < n ==>
      ids[2 * k] == TrialId(f, qvs, k, ExpositionTrial) && ids[2 * k + 1] == TrialId(f, qvs, k, QuestionTrial)
    ensures var ids' := ids + [TrialId(f, qvs, n, ExpositionTrial), TrialId(f, qvs, n, QuestionTrial)];
      forall k :: 0 <= k < n + 1 ==>
        ids'[2 * k] == TrialId(f, qvs, k, ExpositionTrial) && ids'[2 * k + 1] == TrialId(f, qvs, k, QuestionTrial)
  {
    var ids' := ids + [TrialId(f, qvs, n, ExpositionTrial), TrialId(f, qvs, n, QuestionTrial)];
    assert forall k :: 0 <= k < n ==> ids'[2 * k] == ids[2 * k] && ids'[2 * k + 1] == ids[2 * k + 1];
  }

  /** One iteration of the story loop keeps Progress. */
  lemma ProgressStep(frames: map<string, Frame>, f: Family, qvs: QuestionVersions,
                     buttons: map<string, seq<string>>, fr: map<string, Frame>, ids: seq<string>, n: nat,
                     choices: seq<string>)
    requires Ready(qvs) && n < 6
    requires Progress(frames, f, qvs, buttons, fr, ids, n)
    requires StimulusAt(f, qvs, n).buttonSet in buttons
    requires multiset(choices) == multiset(buttons[StimulusAt(f, qvs, n).buttonSet])
    ensures Progress(frames, f, qvs, buttons, WithTrial(fr, f, qvs, n, choices),
                     ids + [TrialId(f, qvs, n, ExpositionTrial), TrialId(f, qvs, n, QuestionTrial)], n + 1)
  {
    ProgressRecords(f, qvs, buttons, fr, n, choices);
    ProgressIds(f, qvs, ids, n);
  }

  /** One story loop: for index in [0, 6), take the condition QSequence[index] and its
      version, look up the stimulus, name the two frames, shuffle the button set into
      the choice slots, insert both records into the frame map and push both names.
      A button-set key absent from the table throws, here as Failure. */
  method AssembleStory(f: Family, qvs: QuestionVersions, buttons: map<string, seq<string>>,
                       frames: map<string, Frame>, rand: nat -> nat, pos: nat)
    returns (r: Result<Assembled, Error>)
    requires ValidRandom(rand) && Ready(qvs)
    ensures r.Success? <==> forall k :: 0 <= k < 6 ==> StimulusAt(f, qvs, k).buttonSet in buttons
    ensures r.Failure? ==> exists k :: (0 <= k < 6
      && (forall k' :: 0 <= k' < k ==> StimulusAt(f, qvs, k').buttonSet in buttons)
      && StimulusAt(f, qvs, k).buttonSet !in buttons
      && r.error == MissingButtonSet(StimulusAt(f, qvs, k).buttonSet))
    ensures r.Success? ==> StoryIds(r.value.ids, f, qvs)
    ensures r.Success? ==> forall k :: 0 <= k < 6 ==> TrialRecorded(r.value.frames, f, qvs, buttons, k)
    ensures r.Success? ==> forall x :: x in r.value.frames <==> x in frames || x in r.value.ids
    ensures r.Success? ==> forall x :: x in frames && x !in r.value.ids ==> r.value.frames[x] == frames[x]
    ensures r.Success? && (forall k :: 0 <= k < 6 ==> |buttons[StimulusAt(f, qvs, k).buttonSet]| == 4) ==>
      r.value.next == pos + 6 * ShuffleDraws(4)
  {
    var ids: seq<string> := [];
    var fr := frames;
    var next := pos;
    for index := 0 to 6
      invariant Progress(frames, f, qvs, buttons, fr, ids, index)
      invariant (forall k :: 0 <= k < index ==> |buttons[StimulusAt(f, qvs, k).buttonSet]| == 4) ==>
        next == pos + ShuffleDraws(4) * index
    {
      var question := qvs.qSequence[index];
      var version := qvs.versions[question];
      var trialPair := Pairing(f, question, version);
      var expositionFrame := TrialName(f, question, version, ExpositionTrial);
      var questionFrame := TrialName(f, question, version, QuestionTrial);
      if trialPair.buttonSet !in buttons {
        r := Failure(MissingButtonSet(trialPair.buttonSet));
        assert StimulusAt(f, qvs, index) == trialPair;
        return;
      }
      var drawn := next;
      var choices;
      choices, next := Shuffle(buttons[trialPair.buttonSet], rand, next);
      ShuffledPermutes(buttons[trialPair.buttonSet], rand, drawn);
      ProgressStep(frames, f, qvs, buttons, fr, ids, index, choices);
      fr := fr[expositionFrame := ExpositionRecord(trialPair)][questionFrame := QuestionRecord(trialPair, choices)];
      ids := ids + [expositionFrame, questionFrame];
    }
    r := Success(Assembled(ids, fr, next));
  }

  /** The kind of the trial frame at position idx of a story's identifiers. */
  function KindAt(idx: nat): TrialKind
  {
    if idx % 2 == 0 then ExpositionTrial else QuestionTrial
  }

  lemma IdAt(ids: seq<string>, f: Family, qvs: QuestionVersions, idx: nat)
    requires Ready(qvs) && StoryIds(ids, f, qvs) && idx < 12
    ensures ids[idx] == TrialId(f, qvs, idx / 2, KindAt(idx))
  {
    var k := idx / 2;
    assert idx == 2 * k || idx == 2 * k + 1;
  }

  /** Every identifier of a story is a trial name of its family with the version its
      condition has in the version object. */
  lemma StoryIdOwn(ids: seq<string>, f: Family, qvs: QuestionVersions, f': Family, c: Condition, v: Version, kind: TrialKind)
    requires Ready(qvs) && StoryIds(ids, f, qvs)
    requires TrialName(f', c, v, kind) in ids
    ensures f' == f && c in qvs.versions && v == qvs.versions[c]
  {
    var idx :| 0 <= idx < 12 && ids[idx] == TrialName(f', c, v, kind);
    IdAt(ids, f, qvs, idx);
    var k := idx / 2;
    TrialNameInjective(f', c, v, kind, f, qvs.qSequence[k], qvs.versions[qvs.qSequence[k]], KindAt(idx));
  }

  /** A story whose QSequence holds condition c pushes both trial names of c. */
  lemma StoryIdCovers(ids: seq<string>, f: Family, qvs: QuestionVersions, c: Condition, kind: TrialKind)
    requires Ready(qvs) && StoryIds(ids, f, qvs)
    requires c in qvs.qSequence
    ensures c in qvs.versions && TrialName(f, c, qvs.versions[c], kind) in ids
  {
    var k :| 0 <= k < 6 && qvs.qSequence[k] == c;
    var idx := if kind == ExpositionTrial then 2 * k else 2 * k + 1;
    assert idx / 2 == k && KindAt(idx) == kind;
    IdAt(ids, f, qvs, idx);
    assert ids[idx] == TrialName(f, c, qvs.versions[c], kind);
  }

  /** When QSequence holds every condition, a story's identifiers are exactly the trial
      names of its own family, one per condition, with that condition's version. */
  lemma StoryIdsAre(ids: seq<string>, f: Family, qvs: QuestionVersions)
    requires Ready(qvs) && StoryIds(ids, f, qvs)
    requires forall c: Condition :: c in qvs.qSequence
    ensures forall f', c, v, kind :: TrialName(f', c, v, kind) in ids <==>
      f' == f && c in qvs.versions && v == qvs.versions[c]
  {
    forall f', c, v, kind
      ensures TrialName(f', c, v, kind) in ids <==> f' == f && c in qvs.versions && v == qvs.versions[c]
    {
      if TrialName(f', c, v, kind) in ids {
        StoryIdOwn(ids, f, qvs, f', c, v, kind);
      }
      StoryIdCovers(ids, f, qvs, c, kind);
    }
  }

  /** No identifier a story pushes is one of the static frame keys. */
  lemma StoryIdsNotStatic(ids: seq<string>, f: Family, qvs: QuestionVersions)
    requires Ready(qvs) && StoryIds(ids, f, qvs)
    ensures forall x :: x in ids ==> x !in StaticFrameNames
  {
    forall idx | 0 <= idx < 12
      ensures ids[idx] !in StaticFrameNames
    {
      IdAt(ids, f, qvs, idx);
      var k := idx / 2;
      TrialNameNotStatic(f, qvs.qSequence[k], qvs.versions[qvs.qSequence[k]], KindAt(idx));
    }
  }

  /** A story over distinct conditions pushes twelve distinct identifiers. */
  lemma StoryIdsDistinct(ids: seq<string>, f: Family, qvs: QuestionVersions)
    requires Ready(qvs) && StoryIds(ids, f, qvs) && Distinct(qvs.qSequence)
    ensures Distinct(ids)
  {
    forall a, b | 0 <= a < b < 12
      ensures ids[a] != ids[b]
    {
      IdAt(ids, f, qvs, a);
      IdAt(ids, f, qvs, b);
      var k, k' := a / 2, b / 2;
      if ids[a] == ids[b] {
        TrialNameInjective(f, qvs.qSequence[k], qvs.versions[qvs.qSequence[k]], KindAt(a),
                           f, qvs.qSequence[k'], qvs.versions[qvs.qSequence[k']], KindAt(b));
      }
    }
  }

  /** Stories of two different families share no identifier. */
  lemma StoriesDisjoint(ids: seq<string>, f: Family, qvs: QuestionVersions,
                        ids': seq<string>, f': Family, qvs': QuestionVersions)
    requires Ready(qvs) && StoryIds(ids, f, qvs)
    requires Ready(qvs') && StoryIds(ids', f', qvs')
    requires f != f'
    ensures forall x :: x in ids ==> x !in ids'
  {
    forall a, b | 0 <= a < 12 && 0 <= b < 12
      ensures ids[a] != ids'[b]
    {
      IdAt(ids, f, qvs, a);
      IdAt(ids', f', qvs', b);
      var k, k' := a / 2, b / 2;
      if ids[a] == ids'[b] {
        TrialNameInjective(f, qvs.qSequence[k], qvs.versions[qvs.qSequence[k]], KindAt(a),
                           f', qvs'.qSequence[k'], qvs'.versions[qvs'.qSequence[k']], KindAt(b));
      }
    }
  }
}
