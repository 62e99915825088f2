/**
 Waiting blocks of which one has its votes, so that the first is taken, and yet the first is one that nobody else commits:
 the leader of round 2 has one vote, and the leader of round 4, which everyone commits, has no path to it. In one case
 all blocks pass all checks and the one with the votes is that of the leader of round 4, as no check looks for the path.
 In the others there is a path. In one the anchor with the votes does not lead its round, in the other its header states
 a wrong round; both is checked only when its own turn comes.
 */
module UnlinkedBlock {
  import opened Types
  import opened Committees
  import opened FourMembers
  import opened CertificateGraph
  import opened Anchors
  import opened Ordering
  import opened Subdags
  import opened Blocks
  import opened SubdagChecks
  import opened BlockChecks
  import opened BlockAnchors

  const SIZE: nat := 24

  function RoundAt(i: nat): nat {
    if i < 3 then 1 else if i < 7 then 2 else if i < 11 then 3 else if i < 14 then 4 else if i < 17 then 5 else if i < 20 then 6
    else if i < 23 then 7 else 8
  }

  function AuthorAt(i: nat): Address {
    if i < 3 then i else if i < 7 then i - 3 else if i < 11 then i - 7 else if i < 14 then i - 11 else if i < 17 then i - 14
    else if i < 20 then i - 17 else if i < 23 then i - 20 else 0
  }

  /** The first of the three certificates that are referenced. */
  function ParentAt(i: nat): nat {
    if i < 7 then 0 else if i == 7 then 3 else if i < 11 then 4 else if i < 13 then 8 else if i == 13 then 7
    else if i < 17 then 11 else if i < 20 then 14 else if i < 23 then 17 else 20
  }

  function At(i: nat): Certificate {
    var j := ParentAt(i);
    Certificate(i, AuthorAt(i), RoundAt(i), if i < 3 then [] else [j, j + 1, j + 2], [])
  }

  const EVERYTHING: Universe := Upto(At, SIZE)

  lemma IsEntryAt(i: nat)
    requires i < SIZE
    ensures IsEntry(At, i)
  {
    if i >= 3 {
      assert Cites(At, At(i), ParentAt(i));
    }
  }

  lemma AllAreEntries()
    ensures IsTable(At, SIZE)
  {
    hide IsEntry;
    forall i: nat | i < SIZE ensures IsEntry(At, i) {
      IsEntryAt(i);
    }
    hide ParentAt;
  }

  lemma AllAreAt(c: Certificate)
    ensures Member(EVERYTHING, c) <==> c.id < SIZE && c == At(c.id)
  {
    hide At;
    AllAreEntries();
    UptoIff(At, SIZE, SIZE, c);
  }

  lemma EverythingIsWellFormed()
    ensures WellFormed(FIRST_LEADS, EVERYTHING)
  {
    hide At;
    AllAreEntries();
    TableIsWellFormed(FIRST_LEADS, At, SIZE);
  }

  /* Blocks that are made of certificates that follow one another in the table. */

  /** Certificates in a row: `n` of them from the one at `first`. */
  datatype Span = Span(first: nat, n: nat)

  function Row(s: Span): seq<Certificate> {
    seq(s.n, k requires 0 <= k < s.n => At(s.first + k))
  }

  /** The rows from a round on; the last one is that of the anchor. */
  function Stack(low: nat, spans: seq<Span>): Block
    requires spans != []
  {
    Block(At(spans[|spans| - 1].first), map r: nat | low <= r < low + |spans| :: RowAt(low, spans, r))
  }

  function RowAt(low: nat, spans: seq<Span>, r: nat): seq<Certificate> {
    if low <= r < low + |spans| then Row(spans[r - low]) else []
  }

  ghost predicate InSpans(spans: seq<Span>, i: nat) {
    exists k :: 0 <= k < |spans| && spans[k].first <= i < spans[k].first + spans[k].n
  }

  /** All of one round, and all referenced by the certificate at `head`. */
  ghost predicate RowFits(s: Span, round: nat, head: nat) {
    && s.n >= 1 && s.first + s.n <= SIZE && RoundAt(s.first) == RoundAt(s.first + s.n - 1) == round
    && head >= 3 && ParentAt(head) <= s.first && s.first + s.n <= ParentAt(head) + 3
  }

  /** Each row is referenced by one certificate of the row above, and the top row is the anchor alone. */
  ghost predicate StackFits(low: nat, spans: seq<Span>, heads: seq<nat>) {
    && spans != [] && |heads| == |spans| - 1 <= 50
    && (forall k :: 0 <= k < |heads| ==>
          && RowFits(spans[k], low + k, heads[k])
          && spans[k + 1].first <= heads[k] < spans[k + 1].first + spans[k + 1].n)
    && var top := spans[|spans| - 1]; top.n == 1 && top.first < SIZE && RoundAt(top.first) == low + |spans| - 1 && RoundAt(top.first) % 2 == 0
  }

  lemma InRow(s: Span, c: Certificate)
    ensures c in Row(s) <==> s.first <= c.id < s.first + s.n && c == At(c.id)
  {
    hide AuthorAt, RoundAt, ParentAt;
    var row := Row(s);
    if c in row {
      var k :| 0 <= k < s.n && row[k] == c;
      assert c == At(s.first + k);
    }
    if s.first <= c.id < s.first + s.n && c == At(c.id) {
      assert row[c.id - s.first] == c;
    }
  }

  lemma RoundBetween(i: nat, j: nat, k: nat)
    requires i <= j <= k && RoundAt(i) == RoundAt(k)
    ensures RoundAt(j) == RoundAt(i)
  {
  }

  lemma RowIsRow(s: Span, round: nat, c: Certificate)
    requires s.n >= 1 && s.first + s.n <= SIZE && RoundAt(s.first) == RoundAt(s.first + s.n - 1) == round
    ensures Row(s) != [] && NoDuplicates(Row(s)) && (c in Row(s) ==> c.round == round && Member(EVERYTHING, c))
  {
    hide AuthorAt, RoundAt, ParentAt, Upto;
    var row := Row(s);
    forall k | 0 <= k < s.n ensures row[k].id == s.first + k {
      assert row[k] == At(s.first + k);
      FieldsAt(s.first + k);
    }
    hide At;
    if c in row {
      InRow(s, c);
      AllAreAt(c);
      RoundBetween(s.first, c.id, s.first + s.n - 1);
      assert At(c.id).round == RoundAt(c.id) by { FieldsAt(c.id); }
    }
  }

  lemma FieldsAt(i: nat)
    ensures At(i).round == RoundAt(i) && At(i).author == AuthorAt(i) && At(i).id == i
  {
  }

  lemma HeadReferences(s: Span, round: nat, head: nat, c: Certificate)
    requires RowFits(s, round, head) && c in Row(s)
    ensures c.id in At(head).previous
  {
    hide AuthorAt, RoundAt, ParentAt;
    InRow(s, c);
    assert At(head).previous[c.id - ParentAt(head)] == c.id;
  }

  lemma StackRow(low: nat, spans: seq<Span>, heads: seq<nat>, k: nat, c: Certificate)
    requires StackFits(low, spans, heads) && k < |spans|
    ensures Row(spans[k]) != [] && NoDuplicates(Row(spans[k]))
    ensures c in Row(spans[k]) ==> c.round == low + k && Member(EVERYTHING, c)
  {
    hide Row, RoundAt, ParentAt;
    RowIsRow(spans[k], low + k, c);
  }

  lemma StackIsPart(low: nat, spans: seq<Span>, heads: seq<nat>)
    requires spans != [] && StackFits(low, spans, heads)
    ensures IsPartOf(EVERYTHING, Stack(low, spans).subdag)
    ensures forall c :: InSubdag(Stack(low, spans).subdag, c) <==> InSpans(spans, c.id) && c == At(c.id)
  {
    hide Row, At, StackFits, Upto;
    var s := Stack(low, spans).subdag;
    forall r | r in s ensures s[r] != [] && NoDuplicates(s[r]) && forall c: Certificate :: c in s[r] ==> c.round == r && Member(EVERYTHING, c) {
      assert s[r] == Row(spans[r - low]);
      StackRow(low, spans, heads, r - low, At(0));
      forall c: Certificate | c in s[r] ensures c.round == r && Member(EVERYTHING, c) {
        StackRow(low, spans, heads, r - low, c);
      }
    }
    forall c ensures InSubdag(s, c) <==> InSpans(spans, c.id) && c == At(c.id) {
      if InSubdag(s, c) {
        assert s[c.round] == Row(spans[c.round - low]);
        InRow(spans[c.round - low], c);
      }
      if InSpans(spans, c.id) && c == At(c.id) {
        var k :| 0 <= k < |spans| && spans[k].first <= c.id < spans[k].first + spans[k].n;
        InRow(spans[k], c);
        StackRow(low, spans, heads, k, c);
        assert s[low + k] == Row(spans[k]);
      }
    }
  }

  lemma RowsConnect(low: nat, spans: seq<Span>, heads: seq<nat>, k: nat)
    requires StackFits(low, spans, heads) && k + 1 < |spans|
    ensures AllReferenced(Row(spans[k]), Row(spans[k + 1]))
  {
    hide Row, At, RowFits, RoundAt;
    assert RowFits(spans[k], low + k, heads[k]);
    var y := At(heads[k]);
    assert y in Row(spans[k + 1]) by { InRow(spans[k + 1], y); FieldsAt(heads[k]); }
    forall c | c in Row(spans[k]) ensures y in Row(spans[k + 1]) && c.id in y.previous {
      HeadReferences(spans[k], low + k, heads[k], c);
    }
  }

  lemma StackConnects(low: nat, spans: seq<Span>, heads: seq<nat>, r: nat)
    requires spans != [] && StackFits(low, spans, heads) && low <= r < low + |spans| - 1
    ensures var s := Stack(low, spans).subdag; AllReferenced(RoundOf(s, r), RoundOf(s, r + 1))
  {
    hide Row, At, AllReferenced, StackFits;
    RowsConnect(low, spans, heads, r - low);
  }

  lemma StackSize(low: nat, spans: seq<Span>)
    requires spans != []
    ensures |Stack(low, spans).subdag| == |spans|
  {
    hide Row, At, RowAt;
    var s := Stack(low, spans).subdag;
    var keys: set<nat> := s.Keys;
    assert keys == Interval(low, |spans|);
    assert |keys| == |s|;
  }

  lemma StackTop(low: nat, spans: seq<Span>, heads: seq<nat>)
    requires spans != [] && StackFits(low, spans, heads)
    ensures var b, top := Stack(low, spans), low + |spans| - 1;
            b.anchor.round == top && top % 2 == 0 && |spans| <= MAX_ROUNDS && b.subdag[top] == [b.anchor]
  {
    hide Row, At, RowFits, RoundAt;
    FieldsAt(spans[|spans| - 1].first);
    TopRowIs(spans[|spans| - 1]);
  }

  lemma StackPasses(low: nat, spans: seq<Span>, heads: seq<nat>)
    requires spans != [] && StackFits(low, spans, heads)
    ensures var b := Stack(low, spans);
            && b.anchor.round == low + |spans| - 1 && Passes(b.subdag, b.anchor.round) && b.subdag[b.anchor.round] == [b.anchor]
  {
    hide Row, At, AllReferenced, StackFits, RowAt, RoundOf;
    var s := Stack(low, spans).subdag;
    StackTop(low, spans, heads);
    StackSize(low, spans);
    forall r | r in s && r < low + |spans| - 1 ensures AllReferenced(RoundOf(s, r), RoundOf(s, r + 1)) {
      StackConnects(low, spans, heads, r);
    }
  }

  lemma TopRowIs(s: Span)
    requires s.n == 1
    ensures Row(s) == [At(s.first)]
  {
    hide At;
  }

  lemma IdsInStack(low: nat, spans: seq<Span>, heads: seq<nat>, i: CertificateId)
    requires spans != [] && StackFits(low, spans, heads)
    ensures i in IdsOf(Stack(low, spans).subdag) <==> InSpans(spans, i)
  {
    hide At, StackFits, Upto, InSpans, Stack;
    var s := Stack(low, spans).subdag;
    StackIsPart(low, spans, heads);
    EverythingIsKeyed();
    InIdsOf(EVERYTHING, s, i);
    FieldsAt(i);
    if InSpans(spans, i) {
      assert InSubdag(s, At(i)) && Member(EVERYTHING, At(i));
    }
    if i in EVERYTHING && InSubdag(s, EVERYTHING[i]) {
      assert EVERYTHING[i].id == i;
    }
  }

  lemma EverythingIsKeyed()
    ensures Keyed(EVERYTHING)
  {
    hide At;
    AllAreEntries();
    UptoIff(At, SIZE, SIZE, At(0));
  }

  /** What the certificate at `i` references is in the rows or known. */
  ghost predicate ParentsFound(spans: seq<Span>, known: set<CertificateId>, i: nat) {
    i >= 3 ==> forall j :: ParentAt(i) <= j < ParentAt(i) + 3 ==> InSpans(spans, j) || j in known
  }

  lemma PreviousAt(i: nat, j: CertificateId)
    requires j in At(i).previous
    ensures 3 <= i && ParentAt(i) <= j < ParentAt(i) + 3
  {
    hide AuthorAt, RoundAt, ParentAt;
  }

  /** Rows whose references are found pass the checks on a subdag, if they begin where the last block ends. */
  lemma StackIsChecked(low: nat, spans: seq<Span>, heads: seq<nat>, x: Pending)
    requires spans != [] && StackFits(low, spans, heads) && x.block == Stack(low, spans)
    requires x.block.anchor.round <= x.last + 2
    requires forall i: nat :: InSpans(spans, i) ==> ParentsFound(spans, x.known, i)
    ensures SubdagChecked(FIRST_LEADS, EVERYTHING, x)
  {
    hide At, StackFits, Upto, InSpans, Stack, Passes, IsPartOf, IdsOf, LinkedWithin;
    var s := x.block.subdag;
    StackIsPart(low, spans, heads);
    StackPasses(low, spans, heads);
    forall c, i | InSubdag(s, c) && i in c.previous ensures i in IdsOf(s) || i in x.known {
      PreviousAt(c.id, i);
      assert ParentsFound(spans, x.known, c.id);
      IdsInStack(low, spans, heads, i);
    }
  }

  /* The blocks. */

  const ALONE_ROWS := [Span(0, 3), Span(3, 1)]
  const VOTED_ROWS := [Span(4, 3), Span(8, 3), Span(11, 1)]
  const VOTING_ROWS := [Span(7, 1), Span(12, 2), Span(14, 3), Span(17, 1)]
  const UNELECTED_ROWS := [Span(4, 3), Span(7, 3), Span(13, 1)]
  const COUNTING_ROWS := [Span(10, 1), Span(11, 2), Span(14, 3), Span(17, 1)]
  const SKIPPING_ROWS := [Span(17, 1)]
  const CLOSING_ROWS := [Span(20, 3), Span(23, 1)]

  const ALONE := Stack(1, ALONE_ROWS)
  const VOTED := Stack(2, VOTED_ROWS)
  const VOTING := Stack(3, VOTING_ROWS)
  const UNELECTED := Stack(2, UNELECTED_ROWS)
  const COUNTING := Stack(3, COUNTING_ROWS)
  const SKIPPING := Stack(6, SKIPPING_ROWS)
  const CLOSING := Stack(7, CLOSING_ROWS)

  /** Headers that state so late a round that no reference is looked up. */
  const SKIPPING_PENDING := Pending(SKIPPING, 200, 2, {})
  const CLOSING_PENDING := Pending(CLOSING, 200, 200, {})

  lemma AloneFits()
    ensures StackFits(1, ALONE_ROWS, [3]) && ALONE.anchor == At(3)
    ensures forall i: nat :: InSpans(ALONE_ROWS, i) <==> i < 4
    ensures forall i: nat :: InSpans(ALONE_ROWS, i) ==> ParentsFound(ALONE_ROWS, {}, i)
  {
    hide At;
    var rows := ALONE_ROWS;
    forall i: nat ensures InSpans(rows, i) <==> i < 4 {
      assert InSpans(rows, i) <==> IsIn(rows[0], i) || IsIn(rows[1], i);
    }
    hide InSpans;
  }

  ghost predicate IsIn(s: Span, i: nat) {
    s.first <= i < s.first + s.n
  }

  lemma VotedFits(known: set<CertificateId>)
    requires forall i: nat :: i < 4 ==> i in known
    ensures StackFits(2, VOTED_ROWS, [8, 11]) && VOTED.anchor == At(11)
    ensures forall i: nat :: InSpans(VOTED_ROWS, i) <==> 4 <= i < 12 && i != 7
    ensures forall i: nat :: InSpans(VOTED_ROWS, i) ==> ParentsFound(VOTED_ROWS, known, i)
  {
    hide At;
    var rows := VOTED_ROWS;
    forall i: nat ensures InSpans(rows, i) <==> 4 <= i < 12 && i != 7 {
      assert InSpans(rows, i) <==> IsIn(rows[0], i) || IsIn(rows[1], i) || IsIn(rows[2], i);
    }
    hide InSpans;
  }

  lemma VotingFits(known: set<CertificateId>)
    requires forall i: nat :: i < 12 && i != 7 ==> i in known
    ensures StackFits(3, VOTING_ROWS, [13, 14, 17]) && VOTING.anchor == At(17)
    ensures forall i: nat :: InSpans(VOTING_ROWS, i) <==> i == 7 || 12 <= i < 18
    ensures forall i: nat :: InSpans(VOTING_ROWS, i) ==> ParentsFound(VOTING_ROWS, known, i)
  {
    hide At;
    var rows := VOTING_ROWS;
    forall i: nat ensures InSpans(rows, i) <==> i == 7 || 12 <= i < 18 {
      assert InSpans(rows, i) <==> IsIn(rows[0], i) || IsIn(rows[1], i) || IsIn(rows[2], i) || IsIn(rows[3], i);
    }
    hide InSpans;
  }

  lemma UnelectedFits(known: set<CertificateId>)
    requires forall i: nat :: i < 4 ==> i in known
    ensures StackFits(2, UNELECTED_ROWS, [8, 13]) && UNELECTED.anchor == At(13)
    ensures forall i: nat :: InSpans(UNELECTED_ROWS, i) <==> 4 <= i < 10 || i == 13
    ensures forall i: nat :: InSpans(UNELECTED_ROWS, i) ==> ParentsFound(UNELECTED_ROWS, known, i)
  {
    hide At;
    var rows := UNELECTED_ROWS;
    forall i: nat ensures InSpans(rows, i) <==> 4 <= i < 10 || i == 13 {
      assert InSpans(rows, i) <==> IsIn(rows[0], i) || IsIn(rows[1], i) || IsIn(rows[2], i);
    }
    hide InSpans;
  }

  lemma CountingFits(known: set<CertificateId>)
    requires forall i: nat :: i < 10 || i == 13 ==> i in known
    ensures StackFits(3, COUNTING_ROWS, [11, 14, 17]) && COUNTING.anchor == At(17)
    ensures forall i: nat :: InSpans(COUNTING_ROWS, i) <==> 10 <= i < 13 || 14 <= i < 18
    ensures forall i: nat :: InSpans(COUNTING_ROWS, i) ==> ParentsFound(COUNTING_ROWS, known, i)
  {
    hide At;
    var rows := COUNTING_ROWS;
    forall i: nat ensures InSpans(rows, i) <==> 10 <= i < 13 || 14 <= i < 18 {
      assert InSpans(rows, i) <==> IsIn(rows[0], i) || IsIn(rows[1], i) || IsIn(rows[2], i) || IsIn(rows[3], i);
    }
    hide InSpans;
  }

  lemma RoundsAre()
    ensures At(3).round == 2 && At(11).round == At(13).round == 4 && At(17).round == 6
    ensures At(3).author == At(11).author == At(17).author == 0 && At(13).author == 2
  {
  }

  lemma OneBlock(b: Block)
    ensures DoneIds([b]) == IdsOf(b.subdag) && LastRound(AnchorsOf([b])) == b.anchor.round
  {
    assert [b][..0] == [];
  }

  lemma TwoBlocks(a: Block, b: Block)
    ensures DoneIds([a, b]) == IdsOf(a.subdag) + IdsOf(b.subdag) && LastRound(AnchorsOf([a, b])) == b.anchor.round
  {
    assert [a, b][..1] == [a];
    OneBlock(a);
  }

  lemma AfterAlone(i: nat)
    ensures i in DoneIds([ALONE]) <==> i < 4
    ensures LastRound(AnchorsOf([ALONE])) == 2
  {
    hide At, Stack, InSpans, StackFits, IdsOf, AnchorsOf, DoneIds, ParentsFound;
    AloneFits();
    RoundsAre();
    OneBlock(ALONE);
    IdsInStack(1, ALONE_ROWS, [3], i);
  }

  lemma AfterVoted(i: nat)
    ensures i in DoneIds([ALONE, VOTED]) <==> i < 12 && i != 7
    ensures LastRound(AnchorsOf([ALONE, VOTED])) == 4
  {
    hide At, Stack, InSpans, StackFits, IdsOf, AnchorsOf, DoneIds, ParentsFound;
    AloneFits();
    VotedFits({0, 1, 2, 3});
    RoundsAre();
    TwoBlocks(ALONE, VOTED);
    IdsInStack(1, ALONE_ROWS, [3], i);
    IdsInStack(2, VOTED_ROWS, [8, 11], i);
  }

  lemma AfterUnelected(i: nat)
    ensures i in DoneIds([ALONE, UNELECTED]) <==> i < 10 || i == 13
    ensures LastRound(AnchorsOf([ALONE, UNELECTED])) == 4
  {
    hide At, Stack, InSpans, StackFits, IdsOf, AnchorsOf, DoneIds, ParentsFound;
    AloneFits();
    UnelectedFits({0, 1, 2, 3});
    RoundsAre();
    TwoBlocks(ALONE, UNELECTED);
    IdsInStack(1, ALONE_ROWS, [3], i);
    IdsInStack(2, UNELECTED_ROWS, [8, 13], i);
  }

  lemma AloneIsChecked()
    ensures Checked(FIRST_LEADS, EVERYTHING, [], ALONE)
  {
    hide At, Stack, InSpans, StackFits, ParentsFound, SubdagChecked;
    AloneFits();
    RoundsAre();
    assert AnchorsOf([]) == [] && DoneIds([]) == {};
    StackIsChecked(1, ALONE_ROWS, [3], OnTopOf([], ALONE));
  }

  lemma VotedIsChecked()
    ensures Checked(FIRST_LEADS, EVERYTHING, [ALONE], VOTED)
  {
    hide At, InSpans, StackFits, ParentsFound, SubdagChecked, DoneIds, AnchorsOf, RowAt;
    forall i: nat | i < 4 ensures i in DoneIds([ALONE]) {
      AfterAlone(i);
    }
    AfterAlone(0);
    VotedFits(DoneIds([ALONE]));
    RoundsAre();
    StackIsChecked(2, VOTED_ROWS, [8, 11], OnTopOf([ALONE], VOTED));
  }

  lemma VotingIsChecked()
    ensures Checked(FIRST_LEADS, EVERYTHING, [ALONE, VOTED], VOTING)
  {
    hide At, InSpans, StackFits, ParentsFound, SubdagChecked, DoneIds, AnchorsOf, RowAt;
    forall i: nat | i < 12 && i != 7 ensures i in DoneIds([ALONE, VOTED]) {
      AfterVoted(i);
    }
    AfterVoted(0);
    VotingFits(DoneIds([ALONE, VOTED]));
    RoundsAre();
    StackIsChecked(3, VOTING_ROWS, [13, 14, 17], OnTopOf([ALONE, VOTED], VOTING));
  }

  lemma UnelectedIsChecked()
    ensures SubdagChecked(FIRST_LEADS, EVERYTHING, OnTopOf([ALONE], UNELECTED))
  {
    hide At, InSpans, StackFits, ParentsFound, SubdagChecked, DoneIds, AnchorsOf, Stack;
    forall i: nat | i < 4 ensures i in DoneIds([ALONE]) {
      AfterAlone(i);
    }
    AfterAlone(0);
    UnelectedFits(DoneIds([ALONE]));
    RoundsAre();
    StackIsChecked(2, UNELECTED_ROWS, [8, 13], OnTopOf([ALONE], UNELECTED));
  }

  lemma CountingIsChecked()
    ensures SubdagChecked(FIRST_LEADS, EVERYTHING, OnTopOf([ALONE, UNELECTED], COUNTING))
  {
    hide At, InSpans, StackFits, ParentsFound, SubdagChecked, DoneIds, AnchorsOf, Stack;
    forall i: nat | i < 10 || i == 13 ensures i in DoneIds([ALONE, UNELECTED]) {
      AfterUnelected(i);
    }
    AfterUnelected(0);
    CountingFits(DoneIds([ALONE, UNELECTED]));
    RoundsAre();
    StackIsChecked(3, COUNTING_ROWS, [11, 14, 17], OnTopOf([ALONE, UNELECTED], COUNTING));
  }

  /* The votes. */

  /** All three certificates of the round after it vote for an anchor. */
  lemma RowVotes(anchor: nat, first: nat, b: Block)
    requires (first == 14 && (anchor == 11 || anchor == 13)) || (first == 20 && anchor == 17)
    requires RoundOf(b.subdag, RoundAt(first)) == Row(Span(first, 3))
    ensures HasVotes(FIRST_LEADS, At(anchor), [b])
  {
    hide Stake, At, Row;
    FieldsAt(anchor);
    var round, voters := RoundAt(first), VotersAmong(At(anchor), [b]);
    assert RoundAt(anchor) + 1 == round;
    forall a: Address | a < 3 ensures a in voters {
      var c := At(first + a);
      VoteFrom(a, first, anchor);
      InRow(Span(first, 3), c);
      assert b in [b] && c in RoundOf(b.subdag, round);
    }
    forall a | a in voters ensures a < 3 {
      var d, c :| d in [b] && c in RoundOf(d.subdag, round) && At(anchor).id in c.previous && c.author == a;
      InRow(Span(first, 3), c);
      AuthorsFrom(first, c);
    }
    assert voters == {0, 1, 2};
    Thresholds(voters);
  }

  lemma VoteFrom(a: Address, first: nat, anchor: nat)
    requires a < 3 && ((first == 14 && (anchor == 11 || anchor == 13)) || (first == 20 && anchor == 17))
    ensures At(first + a).author == a && anchor in At(first + a).previous && At(first + a).id == first + a
  {
    assert At(first + a).previous == if first == 14 then [11, 12, 13] else [17, 18, 19];
  }

  lemma AuthorsFrom(first: nat, c: Certificate)
    requires (first == 14 || first == 20) && first <= c.id < first + 3 && c == At(c.id)
    ensures c.author < 3
  {
  }

  /* Who commits what. */

  lemma NotLinked()
    ensures !Linked(EVERYTHING, At(11), At(3))
  {
    hide At, Linked, Upto;
    RoundsAre();
    if Linked(EVERYTHING, At(11), At(3)) {
      var i := NextOnPath(EVERYTHING, At(11), At(3));
      StepsTo(11, i);
      var j := NextOnPath(EVERYTHING, At(i), At(3));
      StepsTo(i, j);
      LinkedRounds(EVERYTHING, At(j), At(3));
    }
  }

  lemma StepsTo(i: nat, j: CertificateId)
    requires j in At(i).previous && j in EVERYTHING && (i == 11 || 8 <= i < 11)
    ensures EVERYTHING[j] == At(j) && if i == 11 then 8 <= j < 11 && At(j).round == 3 else 4 <= j < 7 && At(j).round == 2 && At(j) != At(3)
  {
    PreviousAt(i, j);
  }

  /** The leader of round 6 is linked to that of round 4, and to that of round 2 by way of the one that is not elected. */
  lemma OthersAreLinked()
    ensures Linked(EVERYTHING, At(13), At(3)) && Linked(EVERYTHING, At(17), At(3)) && Linked(EVERYTHING, At(17), At(11))
  {
    hide At, Upto;
    LinkedToItself(EVERYTHING, At(13));
    LinkedVia(13, 13, 7);
    LinkedVia(13, 7, 3);
    LinkedToItself(EVERYTHING, At(17));
    LinkedVia(17, 17, 14);
    LinkedVia(17, 14, 11);
    LinkedVia(17, 14, 13);
    LinkedVia(17, 13, 7);
    LinkedVia(17, 7, 3);
  }

  lemma LinkedVia(c: nat, i: nat, j: nat)
    requires Linked(EVERYTHING, At(c), At(i)) && 3 <= i < SIZE && ParentAt(i) <= j < ParentAt(i) + 3
    ensures Linked(EVERYTHING, At(c), At(j))
  {
    StepsDown(i, j);
    AllAreAt(At(j));
    hide At, Upto;
    LinkedExtends(EVERYTHING, At(c), At(i), At(j));
  }

  lemma StepsDown(i: nat, j: nat)
    requires 3 <= i < SIZE && ParentAt(i) <= j < ParentAt(i) + 3
    ensures j < SIZE && At(j).id == j && j in At(i).previous && At(j).round < At(i).round
  {
    assert At(i).previous[j - ParentAt(i)] == j;
  }

  /** The leader of round 4 is committed by everyone, and that of round 2 by nobody. */
  lemma FourthRoundCommits()
    ensures Committable(FIRST_LEADS, EVERYTHING, [At(11)]) && !Committable(FIRST_LEADS, EVERYTHING, [At(3)])
  {
    hide At, Upto, Direct, WellFormed, Committable;
    EverythingIsWellFormed();
    FourthIsDirect();
    FourthIsAlone();
    assert [At(11)] <= Chain(FIRST_LEADS, EVERYTHING, At(11));
    ChainPrefix(FIRST_LEADS, EVERYTHING, [At(11)], At(11));
    if Committable(FIRST_LEADS, EVERYTHING, [At(3)]) {
      CommittableAgree(FIRST_LEADS, EVERYTHING, [At(3)], [At(11)]);
      RoundsAre();
      SameFirst(At(3), At(11));
    }
  }

  lemma SameFirst(a: Certificate, b: Certificate)
    requires PrefixComparable([a], [b])
    ensures a == b
  {
    assert [a][0] == [b][0];
  }

  lemma IsLeaderAt(i: nat)
    requires i == 3 || i == 11 || i == 17
    ensures IsLeader(FIRST_LEADS, EVERYTHING, At(i))
  {
    AllAreAt(At(i));
  }

  lemma FourthIsDirect()
    ensures Direct(FIRST_LEADS, EVERYTHING, At(11))
  {
    hide At, Upto, Direct, HasVotes, SubdagChecked, Stack, InSpans, StackFits, ParentsFound, OnTopOf;
    var pending := [OnTopOf([ALONE], VOTED), OnTopOf([ALONE, VOTED], VOTING)];
    VotedIsChecked();
    VotingIsChecked();
    CheckedIs(FIRST_LEADS, EVERYTHING, [ALONE], VOTED);
    CheckedIs(FIRST_LEADS, EVERYTHING, [ALONE, VOTED], VOTING);
    SecondHasVotes();
    EverythingIsKeyed();
    IsLeaderAt(11);
    PendingAre();
    assert BlocksIn(pending[0 + 1..]) == [VOTING];
    VotedIsDirectIff(FIRST_LEADS, EVERYTHING, pending, 0);
  }

  lemma PendingAre()
    ensures OnTopOf([ALONE], VOTED).block == VOTED && OnTopOf([ALONE, VOTED], VOTING).block == VOTING && VOTED.anchor == At(11)
  {
    hide At, DoneIds, AnchorsOf;
  }

  lemma SecondHasVotes()
    ensures HasVotes(FIRST_LEADS, VOTED.anchor, [VOTING])
  {
    hide At, Row, HasVotes;
    RowVotes(11, 14, VOTING);
  }

  lemma UnelectedHasVotes()
    ensures HasVotes(FIRST_LEADS, UNELECTED.anchor, [COUNTING])
  {
    hide At, Row, HasVotes;
    RowVotes(13, 14, COUNTING);
  }

  lemma FourthIsAlone()
    ensures Chain(FIRST_LEADS, EVERYTHING, At(11)) == [At(11)]
  {
    hide At, Upto, Linked, WalkBack, LeaderAt, CertificateValid;
    EverythingIsWellFormed();
    IsLeaderAt(3);
    RoundsAre();
    NotLinked();
    LeaderAtIs(FIRST_LEADS, EVERYTHING, At(3));
    WalkBackSkips(FIRST_LEADS, EVERYTHING, At(11), 2, 2);
    WalkIsOver(FIRST_LEADS, EVERYTHING, At(11), 0, 2);
    assert [] + [At(11)] == [At(11)];
  }

  lemma AloneIsComplete()
    ensures Complete(EVERYTHING, PastOf([], 100), OnTopOf([], ALONE))
  {
    hide At, Linked;
    RoundsAre();
    assert DoneIds([]) == {};
  }

  /**
   Three blocks that each pass all checks on top of the ones before, the second with its votes in the third, so that the
   first two are taken. The anchor of the first is one that nobody commits who finds it.
   */
  lemma TakenAnchorsDiffer()
    ensures WellFormed(FIRST_LEADS, EVERYTHING) && ChecksOut(FIRST_LEADS, EVERYTHING, [], [ALONE, VOTED, VOTING])
    ensures HasVotes(FIRST_LEADS, VOTED.anchor, [VOTING]) && Complete(EVERYTHING, PastOf([], 100), OnTopOf([], ALONE))
    ensures Committable(FIRST_LEADS, EVERYTHING, [VOTED.anchor]) && !Committable(FIRST_LEADS, EVERYTHING, [ALONE.anchor])
  {
    hide At, Upto, WellFormed, Checked, HasVotes, Complete, Committable;
    EverythingIsWellFormed();
    AloneIsChecked();
    VotedIsChecked();
    VotingIsChecked();
    SecondHasVotes();
    AloneIsComplete();
    FourthRoundCommits();
    var blocks := [ALONE, VOTED, VOTING];
    assert [] + blocks[..0] == [] && [] + blocks[..1] == [ALONE] && [] + blocks[..2] == [ALONE, VOTED];
  }

  /**
   Three blocks that wait, all that is checked by then in order, and the first is taken. The second has its votes in
   the third and a path to the first, but its anchor does not lead its round.
   */
  lemma VotedIsNotElected()
    ensures WellFormed(FIRST_LEADS, EVERYTHING)
    ensures MayBeTaken(FIRST_LEADS, EVERYTHING, 0, InTurn([], [ALONE, UNELECTED, COUNTING]), 1)
    ensures LinkedInOrder(EVERYTHING, [ALONE.anchor, UNELECTED.anchor]) && Complete(EVERYTHING, PastOf([], 100), OnTopOf([], ALONE))
    ensures Committable(FIRST_LEADS, EVERYTHING, [At(11)]) && !Committable(FIRST_LEADS, EVERYTHING, [ALONE.anchor])
  {
    hide At, Upto, WellFormed, HasVotes, Complete, Committable, Linked, SubdagChecked, OnTopOf, Authorized, Stack;
    EverythingIsWellFormed();
    AloneIsChecked();
    CheckedIs(FIRST_LEADS, EVERYTHING, [], ALONE);
    UnelectedIsChecked();
    CountingIsChecked();
    UnelectedHasVotes();
    OthersAreLinked();
    AloneIsComplete();
    FourthRoundCommits();
    AnchorsAre();
    var blocks := [ALONE, UNELECTED, COUNTING];
    assert [] + blocks[..0] == [] && [] + blocks[..1] == [ALONE] && [] + blocks[..2] == [ALONE, UNELECTED];
    InTurnBlocks([], blocks, 1);
    assert blocks[2..] == [COUNTING];
  }

  lemma SkippingIsChecked()
    ensures SubdagChecked(FIRST_LEADS, EVERYTHING, SKIPPING_PENDING) && SKIPPING.anchor == At(17)
  {
    hide At, Passes, IsPartOf, LinkedWithin, Upto;
    var rows, heads: seq<nat> := SKIPPING_ROWS, [];
    assert StackFits(6, rows, heads);
    StackIsPart(6, rows, heads);
    StackPasses(6, rows, heads);
  }

  lemma ClosingIsChecked()
    ensures SubdagChecked(FIRST_LEADS, EVERYTHING, CLOSING_PENDING) && CLOSING.anchor == At(23)
  {
    hide At, Passes, IsPartOf, LinkedWithin, Upto;
    var rows, heads: seq<nat> := CLOSING_ROWS, [23];
    assert StackFits(7, rows, heads);
    StackIsPart(7, rows, heads);
    StackPasses(7, rows, heads);
  }

  lemma SkippingHasVotes()
    ensures HasVotes(FIRST_LEADS, SKIPPING.anchor, [CLOSING])
  {
    hide At, Row, HasVotes;
    RowVotes(17, 20, CLOSING);
  }

  /**
   Again the first of three waiting blocks is taken. The anchors of the first two lead their rounds and are linked, and the
   second has its votes. But its header states a later round than it has, which is noticed only when its own turn comes:
   until then no reference of it is looked up, and it leaves out the leader of round 4.
   */
  lemma RoundIsNotVerified()
    ensures WellFormed(FIRST_LEADS, EVERYTHING)
    ensures MayBeTaken(FIRST_LEADS, EVERYTHING, 0, [OnTopOf([], ALONE), SKIPPING_PENDING, CLOSING_PENDING], 1)
    ensures IsLeader(FIRST_LEADS, EVERYTHING, SKIPPING.anchor) && SKIPPING.anchor.round > ALONE.anchor.round
    ensures LinkedInOrder(EVERYTHING, [ALONE.anchor, SKIPPING.anchor]) && Complete(EVERYTHING, PastOf([], 100), OnTopOf([], ALONE))
    ensures Escapes(FIRST_LEADS, EVERYTHING, 2, SKIPPING_PENDING, At(11))
    ensures Committable(FIRST_LEADS, EVERYTHING, [At(11)]) && !Committable(FIRST_LEADS, EVERYTHING, [ALONE.anchor])
  {
    hide At, Upto, WellFormed, HasVotes, Complete, Committable, Linked, SubdagChecked, Authorized, Stack, AnchorsOf, DoneIds;
    EverythingIsWellFormed();
    AloneIsChecked();
    CheckedIs(FIRST_LEADS, EVERYTHING, [], ALONE);
    SkippingIsChecked();
    ClosingIsChecked();
    SkippingHasVotes();
    OthersAreLinked();
    AloneIsComplete();
    FourthRoundCommits();
    AnchorsAre();
    RoundsAre();
    IsLeaderAt(11);
    IsLeaderAt(17);
    var pending := [OnTopOf([], ALONE), SKIPPING_PENDING, CLOSING_PENDING];
    assert BlocksIn(pending[2..]) == [CLOSING];
  }

  lemma AnchorsAre()
    ensures ALONE.anchor == At(3) && UNELECTED.anchor == At(13) && LastRound(AnchorsOf([])) == 0
  {
    hide At;
  }
}
