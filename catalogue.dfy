/** The stimulus catalogue: the four pairing tables, the button-image sets and the
    names of the static frames.  The tables are data; the frames' contents are not
    modelled, only their identifiers. */
module Catalogue {
  import opened Seqs
  import opened Random

  /** A question kind: {ADJ, ARG} x {0, 1, 2}. */
  datatype Condition = ADJ0 | ADJ1 | ADJ2 | ARG0 | ARG1 | ARG2
  {
    /** The key under which the condition appears in the tables and in identifiers. */
    function Name(): string
    {
      match this
      case ADJ0 => "ADJ0"
      case ADJ1 => "ADJ1"
      case ADJ2 => "ADJ2"
      case ARG0 => "ARG0"
      case ARG1 => "ARG1"
      case ARG2 => "ARG2"
    }
  }

  /** The initial QSequence; iteration 2k and 2k+1 of the version loop assign Conditions[k]. */
  const Conditions: seq<Condition> := [ADJ0, ADJ1, ADJ2, ARG0, ARG1, ARG2]

  /** The four stories; Ask1/Ask2 and Promise1/Promise2 are the complementary pairs. */
  datatype Family = Ask1 | Ask2 | Promise1 | Promise2
  {
    /** The prefix of the story's frame identifiers. */
    function Prefix(): string
    {
      match this
      case Ask1 => "Ask1-"
      case Ask2 => "Ask2-"
      case Promise1 => "Promise1-"
      case Promise2 => "Promise2-"
    }
  }

  /** One entry of a pairing table: trialPair[0..3]. */
  datatype Stimulus = Stimulus(storyImage: string, storyAudio: string, buttonSet: string, questionAudio: string)

  /** storyAsk1_pairings, storyAsk2_pairings, storyPromise1_pairings and storyPromise2_pairings. */
  function Pairing(f: Family, c: Condition, v: Version): Stimulus
  {
    match f
    case Ask1 => Ask1Pairing(c, v)
    case Ask2 => Ask2Pairing(c, v)
    case Promise1 => Promise1Pairing(c, v)
    case Promise2 => Promise2Pairing(c, v)
  }

  /** storyAsk1_pairings */
  function Ask1Pairing(c: Condition, v: Version): Stimulus
  {
    match (c, v)
    case (ADJ0, A) => Stimulus("A1-ADJ-0.jpg", "A1-ADJ-0-A", "A1-ADJ-0Buttons", "Q-A1-ADJ-0-A")
    case (ADJ0, B) => Stimulus("A1-ADJ-0.jpg", "A1-ADJ-0-B", "A1-ADJ-0Buttons", "Q-A1-ADJ-0-B")
    case (ARG0, A) => Stimulus("A1-ARG-0.jpg", "A1-ARG-0-A", "A1-ARG-0Buttons", "Q-A1-ARG-0-A")
    case (ARG0, B) => Stimulus("A1-ARG-0.jpg", "A1-ARG-0-B", "A1-ARG-0Buttons", "Q-A1-ARG-0-B")
    case (ADJ1, A) => Stimulus("A1-ADJ-1.jpg", "A1-ADJ-1-A", "A1-ADJ-1Buttons", "Q-A1-ADJ-1-A")
    case (ADJ1, B) => Stimulus("A1-ADJ-1.jpg", "A1-ADJ-1-B", "A1-ADJ-1Buttons", "Q-A1-ADJ-1-B")
    case (ARG1, A) => Stimulus("A1-ARG-1.jpg", "A1-ARG-1-A", "A1-ARG-1Buttons", "Q-A1-ARG-1-A")
    case (ARG1, B) => Stimulus("A1-ARG-1.jpg", "A1-ARG-1-B", "A1-ARG-1Buttons", "Q-A1-ARG-1-B")
    case (ADJ2, A) => Stimulus("A1-ADJ-2.jpg", "A1-ADJ-2-A", "A1-ADJ-2Buttons", "Q-A1-ADJ-2-A")
    case (ADJ2, B) => Stimulus("A1-ADJ-2.jpg", "A1-ADJ-2-B", "A1-ADJ-2Buttons", "Q-A1-ADJ-2-B")
    case (ARG2, A) => Stimulus("A1-ARG-2.jpg", "A1-ARG-2-A", "A1-ARG-2Buttons", "Q-A1-ARG-2-A")
    case (ARG2, B) => Stimulus("A1-ARG-2.jpg", "A1-ARG-2-B", "A1-ARG-2Buttons", "Q-A1-ARG-2-B")
  }

  /** storyAsk2_pairings */
  function Ask2Pairing(c: Condition, v: Version): Stimulus
  {
    match (c, v)
    case (ADJ0, A) => Stimulus("A2-ADJ-0.jpg", "A2-ADJ-0-A", "A2-ADJ-0Buttons", "Q-A2-ADJ-0-A")
    case (ADJ0, B) => Stimulus("A2-ADJ-0.jpg", "A2-ADJ-0-B", "A2-ADJ-0Buttons", "Q-A2-ADJ-0-B")
    case (ARG0, A) => Stimulus("A2-ARG-0.jpg", "A2-ARG-0-A", "A2-ARG-0Buttons", "Q-A2-ARG-0-A")
    case (ARG0, B) => Stimulus("A2-ARG-0.jpg", "A2-ARG-0-B", "A2-ARG-0Buttons", "Q-A2-ARG-0-B")
    case (ADJ1, A) => Stimulus("A2-ADJ-1.jpg", "A2-ADJ-1-A", "A2-ADJ-1Buttons", "Q-A2-ADJ-1-A")
    case (ADJ1, B) => Stimulus("A2-ADJ-1.jpg", "A2-ADJ-1-B", "A2-ADJ-1Buttons", "Q-A2-ADJ-1-B")
    case (ARG1, A) => Stimulus("A2-ARG-1.jpg", "A2-ARG-1-A", "A2-ARG-1Buttons", "Q-A2-ARG-1-A")
    case (ARG1, B) => Stimulus("A2-ARG-1.jpg", "A2-ARG-1-B", "A2-ARG-1Buttons", "Q-A2-ARG-1-B")
    case (ADJ2, A) => Stimulus("A2-ADJ-2.jpg", "A2-ADJ-2-A", "A2-ADJ-2Buttons", "Q-A2-ADJ-2-A")
    case (ADJ2, B) => Stimulus("A2-ADJ-2.jpg", "A2-ADJ-2-B", "A2-ADJ-2Buttons", "Q-A2-ADJ-2-B")
    case (ARG2, A) => Stimulus("A2-ARG-2.jpg", "A2-ARG-2-A", "A2-ARG-2Buttons", "Q-A2-ARG-2-A")
    case (ARG2, B) => Stimulus("A2-ARG-2.jpg", "A2-ARG-2-B", "A2-ARG-2Buttons", "Q-A2-ARG-2-B")
  }

  /** storyPromise1_pairings */
  function Promise1Pairing(c: Condition, v: Version): Stimulus
  {
    match (c, v)
    case (ADJ0, A) => Stimulus("P1-ADJ-0.jpg", "P1-ADJ-0-A", "P1-ADJ-0Buttons", "Q-P1-ADJ-0-A")
    case (ADJ0, B) => Stimulus("P1-ADJ-0.jpg", "P1-ADJ-0-B", "P1-ADJ-0Buttons", "Q-P1-ADJ-0-B")
    case (ARG0, A) => Stimulus("P1-ARG-0.jpg", "P1-ARG-0-A", "P1-ARG-0Buttons", "Q-P1-ARG-0-A")
    case (ARG0, B) => Stimulus("P1-ARG-0.jpg", "P1-ARG-0-B", "P1-ARG-0Buttons", "Q-P1-ARG-0-B")
    case (ADJ1, A) => Stimulus("P1-ADJ-1.jpg", "P1-ADJ-1-A", "P1-ADJ-1Buttons", "Q-P1-ADJ-1-A")
    case (ADJ1, B) => Stimulus("P1-ADJ-1.jpg", "P1-ADJ-1-B", "P1-ADJ-1Buttons", "Q-P1-ADJ-1-B")
    case (ARG1, A) => Stimulus("P1-ARG-1-A.jpg", "P1-ARG-1-A", "P1-ARG-1Buttons", "Q-P1-ARG-1-A")
    case (ARG1, B) => Stimulus("P1-ARG-1-B.jpg", "P1-ARG-1-B", "P1-ARG-1Buttons", "Q-P1-ARG-1-B")
    case (ADJ2, A) => Stimulus("P1-ADJ-2.jpg", "P1-ADJ-2-A", "P1-ADJ-2Buttons", "Q-P1-ADJ-2-A")
    case (ADJ2, B) => Stimulus("P1-ADJ-2.jpg", "P1-ADJ-2-B", "P1-ADJ-2Buttons", "Q-P1-ADJ-2-B")
    case (ARG2, A) => Stimulus("P1-ARG-2.jpg", "P1-ARG-2-A", "P1-ARG-2Buttons", "Q-P1-ARG-2-A")
    case (ARG2, B) => Stimulus("P1-ARG-2.jpg", "P1-ARG-2-B", "P1-ARG-2Buttons", "Q-P1-ARG-2-B")
  }

  /** storyPromise2_pairings */
  function Promise2Pairing(c: Condition, v: Version): Stimulus
  {
    match (c, v)
    case (ADJ0, A) => Stimulus("P2-ADJ-0.jpg", "P2-ADJ-0-A", "P2-ADJ-0Buttons", "Q-P2-ADJ-0-A")
    case (ADJ0, B) => Stimulus("P2-ADJ-0.jpg", "P2-ADJ-0-B", "P2-ADJ-0Buttons", "Q-P2-ADJ-0-B")
    case (ARG0, A) => Stimulus("P2-ARG-0-A.jpg", "P2-ARG-0-A", "P2-ARG-0Buttons", "Q-P2-ARG-0-A")
    case (ARG0, B) => Stimulus("P2-ARG-0-B.jpg", "P2-ARG-0-B", "P2-ARG-0Buttons", "Q-P2-ARG-0-B")
    case (ADJ1, A) => Stimulus("P2-ADJ-1.jpg", "P2-ADJ-1-A", "P2-ADJ-1Buttons", "Q-P2-ADJ-1-A")
    case (ADJ1, B) => Stimulus("P2-ADJ-1.jpg", "P2-ADJ-1-B", "P2-ADJ-1Buttons", "Q-P2-ADJ-1-B")
    case (ARG1, A) => Stimulus("P2-ARG-1-A.jpg", "P2-ARG-1-A", "P2-ARG-1Buttons", "Q-P2-ARG-1-A")
    case (ARG1, B) => Stimulus("P2-ARG-1-B.jpg", "P2-ARG-1-B", "P2-ARG-1Buttons", "Q-P2-ARG-1-B")
    case (ADJ2, A) => Stimulus("P2-ADJ-2.jpg", "P2-ADJ-2-A", "P2-ADJ-2Buttons", "Q-P2-ADJ-2-A")
    case (ADJ2, B) => Stimulus("P2-ADJ-2.jpg", "P2-ADJ-2-B", "P2-ADJ-2Buttons", "Q-P2-ADJ-2-B")
    case (ARG2, A) => Stimulus("P2-ARG-2.jpg", "P2-ARG-2-A", "P2-ARG-2Buttons", "Q-P2-ARG-2-A")
    case (ARG2, B) => Stimulus("P2-ARG-2.jpg", "P2-ARG-2-B", "P2-ARG-2Buttons", "Q-P2-ARG-2-B")
  }

  /** available_buttons: for each button-set key, the images shown as choices. */
  const AvailableButtons: map<string, seq<string>> := map[
    "A1-ADJ-0Buttons" := ["button_whisper.jpg", "button_bothHands.jpg", "button_loud.jpg", "button_fingerpaint.jpg"],
    "A1-ADJ-1Buttons" := ["button_whisper.jpg", "button_watercolors.jpg", "button_loud.jpg", "button_fingerpaint.jpg"],
    "A1-ADJ-2Buttons" := ["button_whisper.jpg", "button_broom.jpg", "button_megaphone.jpg", "button_sponge.jpg"],
    "A1-ARG-0Buttons" := ["button_bashir.jpg", "button_estela.jpg", "button_george.jpg", "button_johnny.jpg"],
    "A1-ARG-1Buttons" := ["button_lambkin.jpg", "button_estela.jpg", "button_george.jpg", "button_kathy.jpg"],
    "A1-ARG-2Buttons" := ["button_lambkin.jpg", "button_estela.jpg", "button_george.jpg", "button_kathy.jpg"],
    "A2-ADJ-0Buttons" := ["button_whisper.jpg", "button_sponge.jpg", "button_loud.jpg", "button_mop.jpg"],
    "A2-ADJ-1Buttons" := ["button_phone.jpg", "button_glue.jpg", "button_walkietalkie.jpg", "button_blue.jpg"],
    "A2-ADJ-2Buttons" := ["button_whisper.jpg", "button_loud.jpg", "button_pencils.jpg", "button_crayons.jpg"],
    "A2-ARG-0Buttons" := ["button_lambkin.jpg", "button_estela.jpg", "button_george.jpg", "button_johnny.jpg"],
    "A2-ARG-1Buttons" := ["button_lambkin.jpg", "button_estela.jpg", "button_george.jpg", "button_kathy.jpg"],
    "A2-ARG-2Buttons" := ["button_lambkin.jpg", "button_estela.jpg", "button_george.jpg", "button_kathy.jpg"],
    "P1-ADJ-0Buttons" := ["button_pinky.jpg", "button_onehand.jpg", "button_crossed.jpg", "button_video.jpg"],
    "P1-ADJ-1Buttons" := ["button_raised.jpg", "button_sweeping.jpg", "button_heart.jpg", "button_cups.jpg"],
    "P1-ADJ-2Buttons" := ["button_phone.jpg", "button_hose.jpg", "button_heart.jpg", "button_bucket.jpg"],
    "P1-ARG-0Buttons" := ["button_lambkin.jpg", "button_johnny.jpg", "button_george.jpg", "button_kathy.jpg"],
    "P1-ARG-1Buttons" := ["button_johnny.jpg", "button_lambkin.jpg", "button_george.jpg", "button_estela.jpg"],
    "P1-ARG-2Buttons" := ["button_johnny.jpg", "button_kathy.jpg", "button_lambkin.jpg", "button_estela.jpg"],
    "P2-ADJ-0Buttons" := ["button_heart.jpg", "button_drawing.jpg", "button_crossed.jpg", "button_painting.jpg"],
    "P2-ADJ-1Buttons" := ["button_heart.jpg", "button_block.jpg", "button_crossed.jpg", "button_video.jpg"],
    "P2-ADJ-2Buttons" := ["button_walkietalkie.jpg", "button_watercolors.jpg", "button_facetime.jpg", "button_oil.jpg"],
    "P2-ARG-0Buttons" := ["button_lambkin.jpg", "button_kathy.jpg", "button_estela.jpg", "button_george.jpg"],
    "P2-ARG-1Buttons" := ["button_kathy.jpg", "button_estela.jpg", "button_lambkin.jpg", "button_george.jpg"],
    "P2-ARG-2Buttons" := ["button_lambkin.jpg", "button_johnny.jpg", "button_george.jpg", "button_estela.jpg"]
  ]

  /** The keys of the static frames defined before the stories are built. */
  const StaticFrameNames: seq<string> := [
    "video-config", "rest", "story1-title", "story2-title", "story3-title", "story4-title",
    "start-recording", "exit-survey", "character-intro1", "character-intro2", "study-intro",
    "video-consent", "video-assent"
  ]

  /** The frames that open every session, in their fixed order. */
  const PreSession: seq<string> := [
    "video-config", "video-consent", "video-assent", "study-intro", "character-intro1", "character-intro2"
  ]

  const StartRecording: string := "start-recording"
  const Rest: string := "rest"
  const ExitSurvey: string := "exit-survey"

  /** Every button-set key named in the four pairing tables exists and holds exactly
      four different images. */
  lemma ButtonSetsComplete(f: Family, c: Condition, v: Version)
    ensures Pairing(f, c, v).buttonSet in AvailableButtons
    ensures |AvailableButtons[Pairing(f, c, v).buttonSet]| == 4
    ensures Distinct(AvailableButtons[Pairing(f, c, v).buttonSet])
  {
    ButtonTableWellFormed();
    match f
    case Ask1 => Ask1ButtonSetsComplete(c, v);
    case Ask2 => Ask2ButtonSetsComplete(c, v);
    case Promise1 => Promise1ButtonSetsComplete(c, v);
    case Promise2 => Promise2ButtonSetsComplete(c, v);
  }

  lemma Ask1ButtonSetsComplete(c: Condition, v: Version)
    ensures Ask1Pairing(c, v).buttonSet in AvailableButtons
  {
    match c
    case ADJ0 =>
    case ADJ1 =>
    case ADJ2 =>
    case ARG0 =>
    case ARG1 =>
    case ARG2 =>
  }

  lemma Ask2ButtonSetsComplete(c: Condition, v: Version)
    ensures Ask2Pairing(c, v).buttonSet in AvailableButtons
  {
    match c
    case ADJ0 =>
    case ADJ1 =>
    case ADJ2 =>
    case ARG0 =>
    case ARG1 =>
    case ARG2 =>
  }

  lemma Promise1ButtonSetsComplete(c: Condition, v: Version)
    ensures Promise1Pairing(c, v).buttonSet in AvailableButtons
  {
    match c
    case ADJ0 =>
    case ADJ1 =>
    case ADJ2 =>
    case ARG0 =>
    case ARG1 =>
    case ARG2 =>
  }

  lemma Promise2ButtonSetsComplete(c: Condition, v: Version)
    ensures Promise2Pairing(c, v).buttonSet in AvailableButtons
  {
    match c
    case ADJ0 =>
    case ADJ1 =>
    case ADJ2 =>
    case ARG0 =>
    case ARG1 =>
    case ARG2 =>
  }

  /** Every button set of the table holds four different images. */
  lemma ButtonTableWellFormed()
    ensures forall key :: key in AvailableButtons ==> |AvailableButtons[key]| == 4 && Distinct(AvailableButtons[key])
  {
  }

  /** The static frame keys are pairwise different, and the fixed identifiers of a
      session are among them. */
  lemma StaticFramesWellFormed()
    ensures Distinct(StaticFrameNames)
    ensures Distinct(PreSession + [ExitSurvey])
    ensures forall x :: x in PreSession + [StartRecording, Rest, ExitSurvey] ==> x in StaticFrameNames
  {
  }
}
