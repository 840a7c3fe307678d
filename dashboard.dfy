/**
  The statistics of the dashboard (src/components/tabs/DashboardTab.tsx):
  per-song adoption, ranked by raw performance count, and per-member
  participation, ranked by the whole-number part of the one-decimal
  participation rate; plus the "50%+ Adoption" figure.
*/
module Dashboard {
  import opened Types
  import opened SetlistMetrics
  import opened StableSort

  // ---------------------------------------------------------------- songs

  /** One entry of songStats; adoptionTenths is the displayed rate in tenths of a percent. */
  datatype SongStat = SongStat(songId: string, title: string, performances: nat, adoptionTenths: nat)

  function SongStatOf(song: Song, setlists: seq<Setlist>): SongStat
  {
    var p := Performances(song.id, setlists);
    SongStat(song.id, song.titleJa, p, RoundedTenths(p, |setlists|))
  }

  /** The sort key of songStats: the raw count, not the rounded rate. */
  function ByPerformances(st: SongStat): real { st.performances as real }

  /** `songs.map(...)` before sorting. */
  function SongStatsUnsorted(songs: seq<Song>, setlists: seq<Setlist>): (r: seq<SongStat>)
    ensures |r| == |songs|
    ensures forall i :: 0 <= i < |songs| ==> r[i] == SongStatOf(songs[i], setlists)
  {
    if songs == [] then [] else [SongStatOf(songs[0], setlists)] + SongStatsUnsorted(songs[1..], setlists)
  }

  /** `songStats` */
  function SongStats(songs: seq<Song>, setlists: seq<Setlist>): seq<SongStat>
  {
    Sort(SongStatsUnsorted(songs, setlists), ByPerformances)
  }

  /** Every entry's count and rate, against the exact adoption percentage. */
  lemma SongStatRate(song: Song, setlists: seq<Setlist>)
    ensures var st := SongStatOf(song, setlists);
      && st.songId == song.id
      && st.performances <= |setlists|
      && st.adoptionTenths <= 1000
      && (|setlists| == 0 ==> st.adoptionTenths == 0)
      && (|setlists| > 0 ==>
            st.adoptionTenths as real - 0.5
            <= 1000.0 * (st.performances as real) / (|setlists| as real)
            < st.adoptionTenths as real + 0.5)
  {
    var p := Performances(song.id, setlists);
    RoundedTenthsAtMostHundred(p, |setlists|);
    if |setlists| > 0 {
      RoundedTenthsBounds(p, |setlists|);
    }
  }

  /**
    songStats holds exactly one entry per song (a permutation of the mapped
    songs), in non-increasing order of performances, and songs with equal
    counts keep their order in `songs`.
  */
  lemma SongStatsRanked(songs: seq<Song>, setlists: seq<Setlist>)
    ensures var r := SongStats(songs, setlists);
      && |r| == |songs|
      && multiset(r) == multiset(SongStatsUnsorted(songs, setlists))
      && NonIncreasing(r, ByPerformances)
      && (forall k :: WithKey(r, ByPerformances, k) == WithKey(SongStatsUnsorted(songs, setlists), ByPerformances, k))
      && (forall st :: st in r ==> exists i :: 0 <= i < |songs| && st == SongStatOf(songs[i], setlists))
  {
    var u := SongStatsUnsorted(songs, setlists);
    var r := SongStats(songs, setlists);
    forall k ensures WithKey(r, ByPerformances, k) == WithKey(u, ByPerformances, k) {
      SortIsStable(u, ByPerformances, k);
    }
    forall st | st in r ensures exists i :: 0 <= i < |songs| && st == SongStatOf(songs[i], setlists) {
      assert st in multiset(u);
      var i :| 0 <= i < |u| && u[i] == st;
    }
  }

  // ------------------------------------------------------- 50%+ adoption

  /** `parseInt(adoptionRate) >= 50`: the integer part of the displayed rate. */
  predicate HalfOrMore(st: SongStat) { st.adoptionTenths / 10 >= 50 }

  /** `songStats.filter(s => parseInt(s.adoptionRate.toString()) >= 50).length` */
  function HighAdoptionCount(stats: seq<SongStat>): (n: nat)
    ensures n <= |stats|
  {
    if stats == [] then 0 else (if HalfOrMore(stats[0]) then 1 else 0) + HighAdoptionCount(stats[1..])
  }

  /** Reference count in integers: songs performed in at least 49.95% of a non-empty set of setlists. */
  function HighAdoptionSongs(songs: seq<Song>, setlists: seq<Setlist>): nat
  {
    if songs == [] then 0
    else (if |setlists| > 0 && 2000 * Performances(songs[0].id, setlists) >= 999 * |setlists| then 1 else 0)
         + HighAdoptionSongs(songs[1..], setlists)
  }

  /**
    The integer part of the rounded rate reaches 50 exactly when the exact
    rate is at least 49.95%: rounding happens before truncation.
  */
  lemma HalfOrMoreThreshold(p: nat, n: nat)
    requires n > 0
    ensures RoundedTenths(p, n) / 10 >= 50 <==> 2000 * p >= 999 * n
  {
    var q := RoundedTenths(p, n);
    DivAtLeast(q, 10, 50);
    DivAtLeast(2000 * p + n, 2 * n, 500);
  }

  lemma {:induction false} HighAdoptionCountConcat(a: seq<SongStat>, b: seq<SongStat>)
    ensures HighAdoptionCount(a + b) == HighAdoptionCount(a) + HighAdoptionCount(b)
  {
    if a == [] {
      assert a + b == b;
    } else {
      assert (a + b)[0] == a[0];
      assert (a + b)[1..] == a[1..] + b;
      HighAdoptionCountConcat(a[1..], b);
    }
  }

  /** The figure does not depend on the order of the entries. */
  lemma {:induction false} HighAdoptionCountPermutation(a: seq<SongStat>, b: seq<SongStat>)
    requires multiset(a) == multiset(b)
    ensures HighAdoptionCount(a) == HighAdoptionCount(b)
    decreases |a|
  {
    if a == [] {
      assert |b| == |multiset(b)| == 0;
    } else {
      var x := a[0];
      assert x in multiset(b);
      var j :| 0 <= j < |b| && b[j] == x;
      var rest := b[..j] + b[j + 1..];
      assert b == b[..j] + [x] + b[j + 1..];
      assert a == [x] + a[1..];
      assert multiset(b) == multiset(b[..j]) + multiset{x} + multiset(b[j + 1..]);
      assert multiset(a) == multiset{x} + multiset(a[1..]);
      assert multiset(rest) == multiset(b[..j]) + multiset(b[j + 1..]);
      assert multiset(a[1..]) == multiset(a) - multiset{x};
      assert multiset(rest) == multiset(b) - multiset{x};
      HighAdoptionCountPermutation(a[1..], rest);
      HighAdoptionCountConcat(b[..j] + [x], b[j + 1..]);
      HighAdoptionCountConcat(b[..j], [x]);
      HighAdoptionCountConcat(b[..j], b[j + 1..]);
      assert [x][1..] == [];
    }
  }

  lemma {:induction false} HighAdoptionUnsorted(songs: seq<Song>, setlists: seq<Setlist>)
    ensures HighAdoptionCount(SongStatsUnsorted(songs, setlists)) == HighAdoptionSongs(songs, setlists)
  {
    if songs != [] {
      var u := SongStatsUnsorted(songs, setlists);
      assert u[1..] == SongStatsUnsorted(songs[1..], setlists);
      HighAdoptionUnsorted(songs[1..], setlists);
      if |setlists| > 0 {
        HalfOrMoreThreshold(Performances(songs[0].id, setlists), |setlists|);
      }
    }
  }

  /** The "50%+ Adoption" figure counts the songs whose exact rate is at least 49.95%. */
  lemma FiftyPercentFigure(songs: seq<Song>, setlists: seq<Setlist>)
    ensures HighAdoptionCount(SongStats(songs, setlists)) == HighAdoptionSongs(songs, setlists)
    ensures HighAdoptionCount(SongStats(songs, setlists)) <= |songs|
  {
    var u := SongStatsUnsorted(songs, setlists);
    HighAdoptionCountPermutation(SongStats(songs, setlists), u);
    HighAdoptionUnsorted(songs, setlists);
  }

  // -------------------------------------------------------------- members

  /** One entry of memberStats; participationTenths is the displayed rate in tenths of a percent. */
  datatype MemberStat = MemberStat(memberId: string, name: string, participationCount: nat, participationTenths: nat)

  function MemberStatOf(member: Member, setlists: seq<Setlist>): MemberStat
  {
    var count := Participation(setlists, member.id);
    MemberStat(member.id, member.nameJa, count, RoundedTenths(count, TotalSlots(setlists)))
  }

  /** The sort key of memberStats: `parseInt` of the one-decimal rate, i.e. its whole-number part. */
  function ByWholePercent(st: MemberStat): real { (st.participationTenths / 10) as real }

  function MemberStatsUnsorted(members: seq<Member>, setlists: seq<Setlist>): (r: seq<MemberStat>)
    ensures |r| == |members|
    ensures forall i :: 0 <= i < |members| ==> r[i] == MemberStatOf(members[i], setlists)
  {
    if members == [] then [] else [MemberStatOf(members[0], setlists)] + MemberStatsUnsorted(members[1..], setlists)
  }

  /** What memberStats must be: the mapped members, stably sorted by whole-number rate. */
  function MemberRanking(members: seq<Member>, setlists: seq<Setlist>): seq<MemberStat>
  {
    Sort(MemberStatsUnsorted(members, setlists), ByWholePercent)
  }

  /**
    The nested forEach loops: one opportunity per (setlist, song) slot, and one
    participation per slot whose selectedMembers include the member.
  */
  method CountParticipation(memberId: string, setlists: seq<Setlist>)
    returns (participationCount: nat, totalOpportunities: nat)
    ensures totalOpportunities == TotalSlots(setlists)
    ensures participationCount == Participation(setlists, memberId)
    ensures participationCount <= totalOpportunities
  {
    participationCount, totalOpportunities := 0, 0;
    var i := 0;
    while i < |setlists|
      invariant 0 <= i <= |setlists|
      invariant totalOpportunities == TotalSlots(setlists[..i])
      invariant participationCount == Participation(setlists[..i], memberId)
    {
      var slots := setlists[i].songs;
      var j := 0;
      while j < |slots|
        invariant 0 <= j <= |slots|
        invariant totalOpportunities == TotalSlots(setlists[..i]) + j
        invariant participationCount == Participation(setlists[..i], memberId) + SlotsWith(slots[..j], memberId)
      {
        totalOpportunities := totalOpportunities + 1;
        if memberId in slots[j].selectedMembers {
          participationCount := participationCount + 1;
        }
        assert slots[..j + 1][..j] == slots[..j];
        j := j + 1;
      }
      assert slots[..j] == slots;
      assert setlists[..i + 1][..i] == setlists[..i];
      i := i + 1;
    }
    assert setlists[..i] == setlists;
  }

  /** `memberStats`: the per-member loop, then the stable sort by whole-number rate. */
  method MemberStats(members: seq<Member>, setlists: seq<Setlist>) returns (stats: seq<MemberStat>)
    ensures stats == MemberRanking(members, setlists)
  {
    var unsorted: seq<MemberStat> := [];
    var i := 0;
    while i < |members|
      invariant 0 <= i <= |members|
      invariant |unsorted| == i
      invariant forall k :: 0 <= k < i ==> unsorted[k] == MemberStatOf(members[k], setlists)
    {
      var member := members[i];
      var participationCount, totalOpportunities := CountParticipation(member.id, setlists);
      var rate := RoundedTenths(participationCount, totalOpportunities);
      unsorted := unsorted + [MemberStat(member.id, member.nameJa, participationCount, rate)];
      i := i + 1;
    }
    assert unsorted == MemberStatsUnsorted(members, setlists);
    stats := Sort(unsorted, ByWholePercent);
  }

  /**
    memberStats holds one entry per member, ordered by non-increasing
    whole-number rate, and members with equal whole-number rates keep their
    order in `members`.
  */
  lemma MemberRankingOrdered(members: seq<Member>, setlists: seq<Setlist>)
    ensures var r := MemberRanking(members, setlists);
      && |r| == |members|
      && multiset(r) == multiset(MemberStatsUnsorted(members, setlists))
      && NonIncreasing(r, ByWholePercent)
      && (forall k :: WithKey(r, ByWholePercent, k) == WithKey(MemberStatsUnsorted(members, setlists), ByWholePercent, k))
  {
    var u := MemberStatsUnsorted(members, setlists);
    forall k ensures WithKey(Sort(u, ByWholePercent), ByWholePercent, k) == WithKey(u, ByWholePercent, k) {
      SortIsStable(u, ByWholePercent, k);
    }
  }

  /**
    Every participation count is at most the number of slots, which is the
    same for all members; the rate is at most 100.0%, and 0 when there are
    no slots.
  */
  lemma MemberRankingBounds(members: seq<Member>, setlists: seq<Setlist>)
    ensures forall st :: st in MemberRanking(members, setlists) ==>
      && st.participationCount <= TotalSlots(setlists)
      && st.participationTenths <= 1000
      && (TotalSlots(setlists) == 0 ==> st.participationTenths == 0)
  {
    var u := MemberStatsUnsorted(members, setlists);
    forall st | st in MemberRanking(members, setlists)
      ensures st.participationCount <= TotalSlots(setlists) && st.participationTenths <= 1000
      ensures TotalSlots(setlists) == 0 ==> st.participationTenths == 0
    {
      assert st in multiset(u);
      var i :| 0 <= i < |u| && u[i] == st;
      assert st == MemberStatOf(members[i], setlists);
      RoundedTenthsAtMostHundred(Participation(setlists, members[i].id), TotalSlots(setlists));
    }
  }

  /**
    The truncation before comparing: 87.1% listed before 87.9% stays first,
    since both compare as 87.
  */
  lemma CoarseTieKeepsOrder()
    ensures var a, b := MemberStat("a", "A", 871, 871), MemberStat("b", "B", 879, 879);
      Sort([a, b], ByWholePercent) == [a, b]
  {
    var a, b := MemberStat("a", "A", 871, 871), MemberStat("b", "B", 879, 879);
    assert [a, b][1..] == [b];
    assert Sort([b], ByWholePercent) == [b];
  }
}
