/**
  The setlist prediction of src/components/tabs/PredictionTab.tsx: for a
  chosen event, each song is scored by how much of its default lineup
  attends and how often it was performed; songs with at least 60% of the
  lineup available are ranked by score and the top four are kept.
*/
module Prediction {
  import opened Types
  import opened Sequences
  import opened SetlistMetrics
  import opened StableSort

  /** One row of the prediction for a song. */
  datatype SongPrediction = SongPrediction(
    songId: string,
    title: string,
    defaultMembers: seq<string>,
    participatingMembers: seq<string>,  // the default members who attend the event
    performances: nat,                  // setlists that perform the song
    setlistCount: nat)                  // all setlists

  datatype PredictionResult = PredictionResult(event: Event, predictions: seq<SongPrediction>)

  const MaxPredictions: nat := 4

  /** `defaults.filter(m => attending.includes(m))` */
  function AvailableMembers(defaults: seq<string>, attending: seq<string>): (r: seq<string>)
    ensures |r| <= |defaults|
    ensures forall m :: m in r <==> m in defaults && m in attending
    ensures IsSubsequence(r, defaults)
    ensures forall m :: multiset(r)[m] == if m in attending then multiset(defaults)[m] else 0
  {
    if defaults == [] then []
    else
      var rest := AvailableMembers(defaults[1..], attending);
      assert defaults == [defaults[0]] + defaults[1..];
      assert multiset(defaults) == multiset{defaults[0]} + multiset(defaults[1..]);
      if defaults[0] in attending then
        assert multiset([defaults[0]] + rest) == multiset{defaults[0]} + multiset(rest);
        [defaults[0]] + rest
      else rest
  }

  /** `events.find(e => e.id === id)`: the first event with the id, if any. */
  function FindEvent(events: seq<Event>, id: string): (r: Option<Event>)
    ensures r.None? <==> forall i :: 0 <= i < |events| ==> events[i].id != id
    ensures r.Some? ==> exists i :: 0 <= i < |events| && events[i] == r.value && r.value.id == id &&
                                    forall j :: 0 <= j < i ==> events[j].id != id
  {
    if events == [] then None
    else if events[0].id == id then Some(events[0])
    else
      var r := FindEvent(events[1..], id);
      if r.Some? then
        var i :| 0 <= i < |events| - 1 && events[1..][i] == r.value && r.value.id == id &&
                 forall j :: 0 <= j < i ==> events[1..][j].id != id;
        assert events[i + 1] == r.value;
        assert forall j :: 0 <= j < i + 1 ==> events[j].id != id by {
          forall j | 0 <= j < i + 1 ensures events[j].id != id {
            if j > 0 { assert events[j] == events[1..][j - 1]; }
          }
        }
        r
      else
        assert forall i :: 1 <= i < |events| ==> events[i] == events[1..][i - 1];
        r
  }

  /** The historical adoption fraction: performances / max(setlists, 1). */
  function HistoricalAdoption(p: SongPrediction): real
  {
    p.performances as real / Max(p.setlistCount, 1) as real
  }

  /** The fraction of the default lineup that attends (undefined, NaN in the source, with no defaults). */
  function Availability(p: SongPrediction): real
    requires |p.defaultMembers| > 0
  {
    |p.participatingMembers| as real / |p.defaultMembers| as real
  }

  /**
    `availabilityRate >= 60` in integers. With no default members the rate is
    0/0, NaN in the source, and the comparison is false.
  */
  predicate Eligible(p: SongPrediction)
  {
    |p.defaultMembers| > 0 && 100 * |p.participatingMembers| >= 60 * |p.defaultMembers|
  }

  /**
    `0.7 * availability + 0.3 * adoption`. A song with no default members is
    never eligible, so the value given to it here is never compared.
  */
  function Score(p: SongPrediction): real
  {
    if |p.defaultMembers| == 0 then 0.0 else 0.7 * Availability(p) + 0.3 * HistoricalAdoption(p)
  }

  function PredictSong(song: Song, event: Event, setlists: seq<Setlist>): SongPrediction
  {
    SongPrediction(song.id, song.titleJa, song.defaultSelectMembers,
                   AvailableMembers(song.defaultSelectMembers, event.participatingMembers),
                   Performances(song.id, setlists), |setlists|)
  }

  /** `songs.map(...)` */
  function PredictAll(songs: seq<Song>, event: Event, setlists: seq<Setlist>): (r: seq<SongPrediction>)
    ensures |r| == |songs|
    ensures forall i :: 0 <= i < |songs| ==> r[i] == PredictSong(songs[i], event, setlists)
  {
    if songs == [] then [] else [PredictSong(songs[0], event, setlists)] + PredictAll(songs[1..], event, setlists)
  }

  /** `.filter(s => s.availabilityRate >= 60)` */
  function KeepEligible(ps: seq<SongPrediction>): (r: seq<SongPrediction>)
    ensures forall p :: p in r <==> p in ps && Eligible(p)
    ensures IsSubsequence(r, ps)
    ensures forall p :: multiset(r)[p] == if Eligible(p) then multiset(ps)[p] else 0
  {
    if ps == [] then []
    else
      var rest := KeepEligible(ps[1..]);
      assert ps == [ps[0]] + ps[1..];
      assert multiset(ps) == multiset{ps[0]} + multiset(ps[1..]);
      if Eligible(ps[0]) then
        assert multiset([ps[0]] + rest) == multiset{ps[0]} + multiset(rest);
        [ps[0]] + rest
      else rest
  }

  /** The eligible songs for the event, before ranking. */
  function Candidates(songs: seq<Song>, event: Event, setlists: seq<Setlist>): seq<SongPrediction>
  {
    KeepEligible(PredictAll(songs, event, setlists))
  }

  /**
    The `predictions` memo: nothing when no event id is chosen or no event has
    it; otherwise the candidates sorted by descending score, first four.
  */
  function Predict(selectedEventId: string, events: seq<Event>, songs: seq<Song>, setlists: seq<Setlist>)
    : (r: Option<PredictionResult>)
    ensures r.None? <==> selectedEventId == "" || forall i :: 0 <= i < |events| ==> events[i].id != selectedEventId
    ensures r.Some? ==> FindEvent(events, selectedEventId) == Some(r.value.event)
    ensures r.Some? ==> r.value.event.id == selectedEventId && |r.value.predictions| <= MaxPredictions
  {
    if selectedEventId == "" then None
    else
      match FindEvent(events, selectedEventId)
      case None => None
      case Some(event) =>
        Some(PredictionResult(event, Shortlist(Candidates(songs, event, setlists))))
  }

  /** `.sort((a, b) => b.predictionScore - a.predictionScore).slice(0, 4)` */
  function Shortlist(candidates: seq<SongPrediction>): seq<SongPrediction>
  {
    var ranked := Sort(candidates, Score);
    ranked[..Min(MaxPredictions, |ranked|)]
  }

  /**
    The shortlist holds the best min(4, candidates) candidates in non-increasing
    score. Among equal scores the earlier candidates win: the shortlist is the
    first entries of the one stable ranking of the candidates.
  */
  lemma ShortlistRanked(candidates: seq<SongPrediction>)
    ensures var ps := Shortlist(candidates);
      && |ps| == Min(MaxPredictions, |candidates|)
      && NonIncreasing(ps, Score)
      && multiset(ps) <= multiset(candidates)
      && (|ps| > 0 ==> forall p :: p in multiset(candidates) - multiset(ps) ==> Score(p) <= Score(ps[|ps| - 1]))
      && (exists ranked :: StableRanking(ranked, candidates, Score))
      && (forall ranked :: StableRanking(ranked, candidates, Score) ==> |ps| <= |ranked| && ps == ranked[..|ps|])
  {
    var ranked := Sort(candidates, Score);
    var ps := Shortlist(candidates);
    TopPrefix(ranked, Score, Min(MaxPredictions, |candidates|));
    SortIsStableRanking(candidates, Score);
    forall other | StableRanking(other, candidates, Score) ensures |ps| <= |other| && ps == other[..|ps|] {
      StableRankingUnique(other, ranked, candidates, Score);
    }
  }

  /** When every candidate has the same score, the shortlist is the first four in song order. */
  lemma TiedScoresKeepOrder(candidates: seq<SongPrediction>)
    requires forall i, j :: 0 <= i < j < |candidates| ==> Score(candidates[i]) == Score(candidates[j])
    ensures Shortlist(candidates) == candidates[..Min(MaxPredictions, |candidates|)]
  {
    SortIsStableRanking(candidates, Score);
    assert StableRanking(candidates, candidates, Score);
    StableRankingUnique(Sort(candidates, Score), candidates, candidates, Score);
  }

  /** Every candidate is an eligible prediction of one of the songs. */
  lemma CandidateOrigin(songs: seq<Song>, event: Event, setlists: seq<Setlist>, p: SongPrediction)
    requires p in Candidates(songs, event, setlists)
    ensures Eligible(p) && exists i :: 0 <= i < |songs| && p == PredictSong(songs[i], event, setlists)
  {
    var all := PredictAll(songs, event, setlists);
    assert p in all;
    var i :| 0 <= i < |all| && all[i] == p;
  }

  /**
    The shortlist: min(4, candidates) entries in non-increasing score, each
    an eligible prediction of one of the songs, drawn from the candidates
    without repetition, and no candidate left out scores above the last entry;
    equal scores keep song order, as the stable ranking does.
  */
  lemma PredictionsRanked(selectedEventId: string, events: seq<Event>, songs: seq<Song>, setlists: seq<Setlist>)
    requires selectedEventId != "" && exists i :: 0 <= i < |events| && events[i].id == selectedEventId
    ensures Predict(selectedEventId, events, songs, setlists).Some?
    ensures var r := Predict(selectedEventId, events, songs, setlists).value;
      var candidates := Candidates(songs, r.event, setlists);
      var ps := r.predictions;
      && |ps| == Min(MaxPredictions, |candidates|)
      && NonIncreasing(ps, Score)
      && multiset(ps) <= multiset(candidates)
      && (forall p :: p in ps ==> Eligible(p) && exists i :: 0 <= i < |songs| && p == PredictSong(songs[i], r.event, setlists))
      && (|ps| > 0 ==> forall p :: p in multiset(candidates) - multiset(ps) ==> Score(p) <= Score(ps[|ps| - 1]))
      && (forall ranked :: StableRanking(ranked, candidates, Score) ==> |ps| <= |ranked| && ps == ranked[..|ps|])
  {
    var r := Predict(selectedEventId, events, songs, setlists).value;
    var candidates := Candidates(songs, r.event, setlists);
    var ps := r.predictions;
    ShortlistRanked(candidates);
    forall p | p in ps
      ensures Eligible(p) && exists i :: 0 <= i < |songs| && p == PredictSong(songs[i], r.event, setlists)
    {
      assert p in multiset(ps);
      CandidateOrigin(songs, r.event, setlists, p);
    }
  }

  /** A fraction of naturals with numerator at most the denominator lies in [0, 1]. */
  lemma FractionInUnit(x: nat, y: nat)
    requires 0 < y && x <= y
    ensures 0.0 <= x as real / y as real <= 1.0
  {
    assert (x as real / y as real) * (y as real) == x as real;
  }

  /** Adoption and score of every song's prediction lie in [0, 1]. */
  lemma ScoreInUnitInterval(song: Song, event: Event, setlists: seq<Setlist>)
    ensures var p := PredictSong(song, event, setlists);
      && |p.participatingMembers| <= |p.defaultMembers|
      && 0.0 <= HistoricalAdoption(p) <= 1.0
      && 0.0 <= Score(p) <= 1.0
  {
    var p := PredictSong(song, event, setlists);
    FractionInUnit(p.performances, Max(p.setlistCount, 1));
    if |p.defaultMembers| > 0 {
      FractionInUnit(|p.participatingMembers|, |p.defaultMembers|);
    }
  }

  /**
    The integer test is the source's `availability * 100 >= 60`; exactly 60%
    passes, and a song with no default members never does.
  */
  lemma EligibleIffSixtyPercent(p: SongPrediction)
    ensures Eligible(p) <==> |p.defaultMembers| > 0 && Availability(p) * 100.0 >= 60.0
  {
    if |p.defaultMembers| > 0 {
      var a, d := |p.participatingMembers| as real, |p.defaultMembers| as real;
      assert Availability(p) * d == a;
      assert (Availability(p) * 100.0) * d == 100.0 * a;
      if Availability(p) * 100.0 >= 60.0 {
        assert (Availability(p) * 100.0) * d >= 60.0 * d;
      } else {
        assert (Availability(p) * 100.0) * d < 60.0 * d;
      }
    }
  }

  /** When every default member attends, all of them are available, in order. */
  lemma {:induction false} AvailableAllAttend(defaults: seq<string>, attending: seq<string>)
    requires forall i :: 0 <= i < |defaults| ==> defaults[i] in attending
    ensures AvailableMembers(defaults, attending) == defaults
  {
    if defaults != [] {
      AvailableAllAttend(defaults[1..], attending);
      assert defaults == [defaults[0]] + defaults[1..];
    }
  }

  /** When no default member attends, none is available. */
  lemma {:induction false} AvailableNoneAttend(defaults: seq<string>, attending: seq<string>)
    requires forall i :: 0 <= i < |defaults| ==> defaults[i] !in attending
    ensures AvailableMembers(defaults, attending) == []
  {
    if defaults != [] {
      AvailableNoneAttend(defaults[1..], attending);
    }
  }

  /** The filter distributes over concatenated default lineups. */
  lemma {:induction false} AvailableConcat(a: seq<string>, b: seq<string>, attending: seq<string>)
    ensures AvailableMembers(a + b, attending) == AvailableMembers(a, attending) + AvailableMembers(b, attending)
  {
    if a == [] {
      assert a + b == b;
    } else {
      assert (a + b)[0] == a[0];
      assert (a + b)[1..] == a[1..] + b;
      AvailableConcat(a[1..], b, attending);
    }
  }

  /**
    A member listed twice among the defaults counts twice: with that member
    attending, both entries are available and the song is at 100%.
  */
  lemma DuplicateDefaultCountsTwice(m: string)
    ensures var event := Event("e", "2024-01-01", "Live", "Hall", [m], None);
      var song := Song("d", "D", "D", None, 200, [m, m], None);
      var p := PredictSong(song, event, []);
      p.participatingMembers == [m, m] && Eligible(p)
  {
    assert AvailableMembers([m, m], [m]) == [m, m] by {
      AvailableAllAttend([m, m], [m]);
    }
  }

  /** Three of five default members attending is exactly 60%: the song is kept, whatever the ids. */
  lemma SixtyPercentKept(present: seq<string>, absent: seq<string>)
    requires |present| == 3 && |absent| == 2
    requires forall i :: 0 <= i < |absent| ==> absent[i] !in present
    ensures var event := Event("e", "2024-01-01", "Live", "Hall", present, None);
      var song := Song("a", "A", "A", None, 200, present + absent, None);
      var p := PredictSong(song, event, []);
      |p.participatingMembers| == 3 && Eligible(p)
  {
    assert AvailableMembers(present + absent, present) == present by {
      AvailableConcat(present, absent, present);
      AvailableAllAttend(present, present);
      AvailableNoneAttend(absent, present);
    }
  }

  /** One of eight default members attending is 12.5%: the song is dropped, whatever the ids. */
  lemma OneInEightDropped(m1: string, absent: seq<string>)
    requires |absent| == 7 && m1 !in absent
    ensures var event := Event("e", "2024-01-01", "Live", "Hall", [m1], None);
      var song := Song("b", "B", "B", None, 200, [m1] + absent, None);
      var p := PredictSong(song, event, []);
      |p.participatingMembers| == 1 && !Eligible(p)
  {
    assert AvailableMembers([m1] + absent, [m1]) == [m1] by {
      AvailableConcat([m1], absent, [m1]);
      AvailableAllAttend([m1], [m1]);
      AvailableNoneAttend(absent, [m1]);
    }
  }
}
