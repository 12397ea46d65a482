/** One trial of a story: its two frame identifiers and its two frame records
    (the exposition frame, then the question frame with four choice slots). */
module Trials {
  import opened Wrappers
  import opened Random
  import opened Catalogue

  /** Which of the two frames of a trial. */
  datatype TrialKind = ExpositionTrial | QuestionTrial

  function Suffix(k: TrialKind): string
  {
    if k == ExpositionTrial then "-Exposition" else "-Question"
  }

  /** `"<Family>-" + question + version + "-Exposition"`, or `"-Question"`. */
  function TrialName(f: Family, c: Condition, v: Version, k: TrialKind): string
  {
    f.Prefix() + c.Name() + v.Label() + Suffix(k)
  }

  lemma ConcatParts(p: string, m: string, l: string, s: string)
    requires |m| == 4 && |l| == 1
    ensures var x, n := p + m + l + s, |p|;
      && |x| == n + 5 + |s|
      && x[..n] == p
      && x[n..n + 4] == m
      && x[n + 4] == l[0]
      && x[n + 5..] == s
  {
    var x := p + m + l + s;
    assert x == p + (m + (l + s));
    assert x[|p|..] == m + (l + s);
    assert (m + (l + s))[..4] == m;
    assert (m + (l + s))[4..] == l + s;
  }

  lemma TrialNameParts(f: Family, c: Condition, v: Version, k: TrialKind)
    ensures var x, n := TrialName(f, c, v, k), |f.Prefix()|;
      && |x| == n + 5 + |Suffix(k)|
      && x[..n] == f.Prefix()
      && x[n..n + 4] == c.Name()
      && x[n + 4] == v.Label()[0]
      && x[n + 5..] == Suffix(k)
  {
    assert |c.Name()| == 4;
    assert |v.Label()| == 1;
    ConcatParts(f.Prefix(), c.Name(), v.Label(), Suffix(k));
  }

  /** Different trials get different identifiers: the identifier determines the
      family, the condition, the version and the kind. */
  lemma TrialNameInjective(f: Family, c: Condition, v: Version, k: TrialKind,
                           f': Family, c': Condition, v': Version, k': TrialKind)
    requires TrialName(f, c, v, k) == TrialName(f', c', v', k')
    ensures f == f' && c == c' && v == v' && k == k'
  {
    var x := TrialName(f, c, v, k);
    TrialNameParts(f, c, v, k);
    TrialNameParts(f', c', v', k');
    var p, p' := f.Prefix(), f'.Prefix();
    assert x[0] == p[0] && x[0] == p'[0];
    assert |p| == |p'| by {
      assert p[0] == 'A' <==> |p| == 5;
      assert p'[0] == 'A' <==> |p'| == 5;
    }
    assert p == p';
  }

  /** A generated identifier never names a static frame. */
  lemma TrialNameNotStatic(f: Family, c: Condition, v: Version, k: TrialKind)
    ensures TrialName(f, c, v, k) !in StaticFrameNames
  {
    var x := TrialName(f, c, v, k);
    TrialNameParts(f, c, v, k);
    assert x[0] == f.Prefix()[0];
    assert x[0] == 'A' || x[0] == 'P';
    forall y | y in StaticFrameNames ensures y[0] != 'A' && y[0] != 'P' { }
  }

  /** A frame record.  Static frames are opaque and known by their key; a generated
      frame keeps only the fields that vary between trials. */
  datatype Frame =
    | Static(name: string)
    | Exposition(audio: string, image: string)
    | Question(audio: string, image: string, choices: seq<Option<string>>)

  /** choices[k]: undefined past the end of the shuffled set. */
  function Slot(shuffled: seq<string>, k: nat): Option<string>
  {
    if k < |shuffled| then Some(shuffled[k]) else None
  }

  /** The `src` of the slots choice0 .. choice3. */
  function ChoiceSlots(shuffled: seq<string>): seq<Option<string>>
  {
    [Slot(shuffled, 0), Slot(shuffled, 1), Slot(shuffled, 2), Slot(shuffled, 3)]
  }

  /** The four slots of a question frame show the button set: a slot is filled exactly
      when the set is long enough, with an image of the set; a set of four fills the
      slots with a permutation of itself. */
  ghost predicate ChoicesFrom(choices: seq<Option<string>>, images: seq<string>)
  {
    && |choices| == 4
    && (forall k :: 0 <= k < 4 ==> (choices[k].Some? <==> k < |images|))
    && (forall k :: 0 <= k < 4 && choices[k].Some? ==> choices[k].value in images)
    && (|images| == 4 ==>
          multiset{choices[0].value, choices[1].value, choices[2].value, choices[3].value} == multiset(images))
  }

  lemma SlotsFilledUpTo(shuffled: seq<string>)
    ensures forall k :: 0 <= k < 4 ==> (ChoiceSlots(shuffled)[k].Some? <==> k < |shuffled|)
    ensures forall k :: 0 <= k < 4 && k < |shuffled| ==> ChoiceSlots(shuffled)[k].value == shuffled[k]
  {
  }

  lemma SlotsOfFour(shuffled: seq<string>)
    requires |shuffled| == 4
    ensures var c := ChoiceSlots(shuffled);
      multiset{c[0].value, c[1].value, c[2].value, c[3].value} == multiset(shuffled)
  {
    assert shuffled == [shuffled[0], shuffled[1], shuffled[2], shuffled[3]];
  }

  /** Slots filled from a shuffle of the button set show that set. */
  lemma ChoiceSlotsShowSet(shuffled: seq<string>, images: seq<string>)
    requires multiset(shuffled) == multiset(images)
    ensures ChoicesFrom(ChoiceSlots(shuffled), images)
  {
    assert |shuffled| == |images| by {
      assert |multiset(shuffled)| == |shuffled|;
    }
    SlotsFilledUpTo(shuffled);
    forall k | 0 <= k < |shuffled| ensures shuffled[k] in images {
      assert shuffled[k] in multiset(images);
    }
    if |images| == 4 {
      SlotsOfFour(shuffled);
    }
  }

  /** The exposition frame of a trial. */
  function ExpositionRecord(stim: Stimulus): Frame
  {
    Exposition(stim.storyAudio, stim.storyImage)
  }

  /** The question frame of a trial whose button set came out of the shuffle as `shuffled`. */
  function QuestionRecord(stim: Stimulus, shuffled: seq<string>): Frame
  {
    Question(stim.questionAudio, stim.storyImage, ChoiceSlots(shuffled))
  }
}
