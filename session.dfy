/** Session sequencing: the pre-session identifiers, then each story of the shuffled
    story order between a start-recording marker and (except after the last story) a
    rest marker, then the exit survey. */
module Session {
  import opened Seqs
  import opened Catalogue

  /** The story order the sequencing loop reads: four stories of twelve identifiers. */
  ghost predicate Stories(order: seq<seq<string>>)
  {
    |order| == 4 && forall i :: 0 <= i < 4 ==> |order[i]| == 12
  }

  /** What the i-th pass of the outer loop appends. */
  function Block(story: seq<string>, i: nat): seq<string>
  {
    [StartRecording] + story + (if i < 3 then [Rest] else [])
  }

  /** What the first n passes of the outer loop append. */
  function Blocks(order: seq<seq<string>>, n: nat): seq<string>
    requires Stories(order) && n <= 4
  {
    if n == 0 then [] else Blocks(order, n - 1) + Block(order[n - 1], n - 1)
  }

  function SessionSequence(order: seq<seq<string>>): seq<string>
    requires Stories(order)
  {
    PreSession + Blocks(order, 4) + [ExitSurvey]
  }

  /** The sequencing loop: start from the pre-session identifiers; for each story append
      start-recording, its twelve identifiers one by one, and rest unless it is the
      last story; finish with the exit survey. */
  method SequenceSession(storyOrder: seq<seq<string>>) returns (sequence: seq<string>)
    requires Stories(storyOrder)
    ensures sequence == SessionSequence(storyOrder)
  {
    sequence := PreSession;
    for i := 0 to 4
      invariant sequence == PreSession + Blocks(storyOrder, i)
    {
      var story := storyOrder[i];
      sequence := sequence + [StartRecording];
      for j := 0 to 12
        invariant sequence == PreSession + Blocks(storyOrder, i) + [StartRecording] + story[..j]
      {
        sequence := sequence + [story[j]];
        assert story[..j + 1] == story[..j] + [story[j]];
      }
      assert story[..12] == story;
      if i < 3 {
        sequence := sequence + [Rest];
      }
    }
    sequence := sequence + [ExitSurvey];
  }

  /** The entry at position p of a session, by arithmetic on p: six pre-session entries,
      then blocks of fourteen (start-recording, twelve story entries, rest), the last
      block without its rest, then the exit survey at position 61. */
  function Entry(order: seq<seq<string>>, p: nat): string
    requires Stories(order) && p < 62
  {
    if p < 6 then PreSession[p]
    else if p == 61 then ExitSurvey
    else BlockEntry(order, p - 6)
  }

  /** The entry at offset q of the 55 block entries: block q / 14, and in it
      start-recording, a story entry or rest by q % 14. */
  function BlockEntry(order: seq<seq<string>>, q: nat): string
    requires Stories(order) && q < 55
  {
    var i, r := q / 14, q % 14;
    if r == 0 then StartRecording else if r == 13 then Rest else order[i][r - 1]
  }

  lemma {:induction false} BlocksEntries(order: seq<seq<string>>, n: nat)
    requires Stories(order) && n <= 4
    ensures |Blocks(order, n)| == if n == 4 then 55 else 14 * n
    ensures forall q :: 0 <= q < |Blocks(order, n)| ==> Blocks(order, n)[q] == BlockEntry(order, q)
  {
    if n > 0 {
      BlocksEntries(order, n - 1);
      var prefix, block := Blocks(order, n - 1), Block(order[n - 1], n - 1);
      assert Blocks(order, n) == prefix + block;
      forall q | 0 <= q < |Blocks(order, n)|
        ensures Blocks(order, n)[q] == BlockEntry(order, q)
      {
        if q >= |prefix| {
          var r := q - 14 * (n - 1);
          assert q / 14 == n - 1 && q % 14 == r;
          assert Blocks(order, n)[q] == block[r];
        }
      }
    }
  }

  /** The sequence built by the loop is the positional layout: 62 entries, entry p as
      Entry describes. */
  lemma SessionEntries(order: seq<seq<string>>)
    requires Stories(order)
    ensures |SessionSequence(order)| == 62
    ensures forall p :: 0 <= p < 62 ==> SessionSequence(order)[p] == Entry(order, p)
  {
    BlocksEntries(order, 4);
    var s, blocks := SessionSequence(order), Blocks(order, 4);
    forall p | 0 <= p < 62
      ensures s[p] == Entry(order, p)
    {
      if 6 <= p < 61 {
        assert s[p] == blocks[p - 6];
      }
    }
  }

  /** Which positions hold the three markers, entry by entry. */
  lemma EntryMarkers(order: seq<seq<string>>, p: nat)
    requires Stories(order) && p < 62
    requires forall i, j :: 0 <= i < 4 && 0 <= j < 12 ==> order[i][j] !in StaticFrameNames
    ensures Entry(order, p) == StartRecording <==> p in {6, 20, 34, 48}
    ensures Entry(order, p) == Rest <==> p in {19, 33, 47}
    ensures Entry(order, p) == ExitSurvey <==> p == 61
  {
    if p < 6 {
      assert PreSession[p] !in [StartRecording, Rest, ExitSurvey];
    } else if p < 61 {
      var i, r := (p - 6) / 14, (p - 6) % 14;
      if 1 <= r <= 12 {
        assert StaticFrameNames[6] == StartRecording && StaticFrameNames[1] == Rest && StaticFrameNames[7] == ExitSurvey;
        assert Entry(order, p) == order[i][r - 1];
      }
    }
  }

  /** Start-recording, rest and exit-survey stand exactly at their fixed positions, so
      there are 4 start-recording and 3 rest markers, and every start-recording is
      followed by one whole story. */
  lemma SessionMarkers(order: seq<seq<string>>)
    requires Stories(order)
    requires forall i, j :: 0 <= i < 4 && 0 <= j < 12 ==> order[i][j] !in StaticFrameNames
    ensures |SessionSequence(order)| == 62
    ensures SessionSequence(order)[..6] == PreSession
    ensures forall p :: 0 <= p < 62 ==>
      (SessionSequence(order)[p] == StartRecording <==> p in {6, 20, 34, 48})
    ensures forall p :: 0 <= p < 62 ==> (SessionSequence(order)[p] == Rest <==> p in {19, 33, 47})
    ensures forall p :: 0 <= p < 62 ==> (SessionSequence(order)[p] == ExitSurvey <==> p == 61)
    ensures forall i, j :: 0 <= i < 4 && 0 <= j < 12 ==> SessionSequence(order)[7 + 14 * i + j] == order[i][j]
  {
    SessionEntries(order);
    var s := SessionSequence(order);
    forall p | 0 <= p < 62
      ensures (s[p] == StartRecording <==> p in {6, 20, 34, 48})
      ensures (s[p] == Rest <==> p in {19, 33, 47})
      ensures (s[p] == ExitSurvey <==> p == 61)
    {
      EntryMarkers(order, p);
    }
    SessionBlocks(order);
  }

  /** Entry j of story i stands at position 7 + 14 * i + j. */
  lemma SessionBlocks(order: seq<seq<string>>)
    requires Stories(order)
    ensures |SessionSequence(order)| == 62
    ensures forall i, j :: 0 <= i < 4 && 0 <= j < 12 ==> SessionSequence(order)[7 + 14 * i + j] == order[i][j]
  {
    SessionEntries(order);
    forall i, j | 0 <= i < 4 && 0 <= j < 12
      ensures SessionSequence(order)[7 + 14 * i + j] == order[i][j]
    {
      var p := 7 + 14 * i + j;
      assert (p - 6) / 14 == i && (p - 6) % 14 == j + 1;
    }
  }

  /** The story entries of a session are distinct within each story and across stories. */
  ghost predicate DistinctStories(order: seq<seq<string>>)
    requires Stories(order)
  {
    && (forall i, j :: 0 <= i < 4 && 0 <= j < 12 ==> order[i][j] !in StaticFrameNames)
    && (forall i :: 0 <= i < 4 ==> Distinct(order[i]))
    && (forall i, i', j, j' :: 0 <= i < 4 && 0 <= i' < 4 && i != i' && 0 <= j < 12 && 0 <= j' < 12 ==>
          order[i][j] != order[i'][j'])
  }

  /** Only the start-recording and rest markers occur twice in a session. */
  lemma OnlyMarkersRepeat(order: seq<seq<string>>)
    requires Stories(order) && DistinctStories(order)
    ensures forall p, q :: 0 <= p < q < |SessionSequence(order)| && SessionSequence(order)[p] == SessionSequence(order)[q] ==>
      SessionSequence(order)[p] == StartRecording || SessionSequence(order)[p] == Rest
  {
    SessionEntries(order);
    var s := SessionSequence(order);
    StaticFramesWellFormed();
  }

  /** Every entry of a session is a static identifier or an entry of some story. */
  lemma SessionEntriesFrom(order: seq<seq<string>>)
    requires Stories(order)
    ensures forall p :: 0 <= p < |SessionSequence(order)| ==>
      SessionSequence(order)[p] in StaticFrameNames ||
      exists i :: 0 <= i < 4 && SessionSequence(order)[p] in order[i]
  {
    SessionEntries(order);
    StaticFramesWellFormed();
    var s := SessionSequence(order);
    forall p | 0 <= p < 62
      ensures s[p] in StaticFrameNames || exists i :: 0 <= i < 4 && s[p] in order[i]
    {
      if p < 6 {
        assert s[p] in PreSession;
      } else if 6 <= p < 61 && 1 <= (p - 6) % 14 <= 12 {
        var i, r := (p - 6) / 14, (p - 6) % 14;
        assert s[p] == order[i][r - 1];
      }
    }
  }
}
