/**
  Counts over setlists shared by the dashboard statistics and the prediction:
  how many setlists perform a song, how many (setlist, song) slots there are,
  and how many of them list a member. Also the one-decimal rounding that
  `toFixed(1)` applies to a percentage.
*/
module SetlistMetrics {
  import opened Types

  /** `sl.songs.some(s => s.songId === songId)` */
  predicate Contains(sl: Setlist, songId: string)
  {
    exists k :: 0 <= k < |sl.songs| && sl.songs[k].songId == songId
  }

  /** The number of setlists that perform the song at least once. */
  function Performances(songId: string, setlists: seq<Setlist>): (n: nat)
    ensures n <= |setlists|
  {
    if setlists == [] then 0
    else (if Contains(setlists[0], songId) then 1 else 0) + Performances(songId, setlists[1..])
  }

  /** Performances add up over concatenated setlist collections. */
  lemma {:induction false} PerformancesConcat(songId: string, a: seq<Setlist>, b: seq<Setlist>)
    ensures Performances(songId, a + b) == Performances(songId, a) + Performances(songId, b)
  {
    if a == [] {
      assert a + b == b;
    } else {
      assert (a + b)[0] == a[0];
      assert (a + b)[1..] == a[1..] + b;
      PerformancesConcat(songId, a[1..], b);
      var first := if Contains(a[0], songId) then 1 else 0;
      calc {
        Performances(songId, a + b);
        first + Performances(songId, a[1..] + b);
        first + Performances(songId, a[1..]) + Performances(songId, b);
        Performances(songId, a) + Performances(songId, b);
      }
    }
  }

  /**
    A setlist counts once however often it repeats the song: adding a slot
    for a song the setlist already performs changes no performance count.
  */
  lemma RepeatCountsOnce(songId: string, sl: Setlist, slot: SetlistSong)
    requires Contains(sl, songId)
    ensures Performances(songId, [sl.(songs := sl.songs + [slot])]) == Performances(songId, [sl]) == 1
  {
    var k :| 0 <= k < |sl.songs| && sl.songs[k].songId == songId;
    assert (sl.songs + [slot])[k] == sl.songs[k];
  }

  // The slot counts below peel off the last element, matching loops that walk
  // the setlists (and the slots within a setlist) from first to last.

  /** The total number of (setlist, song) slots. */
  function TotalSlots(setlists: seq<Setlist>): nat
  {
    if setlists == [] then 0
    else TotalSlots(setlists[..|setlists| - 1]) + |setlists[|setlists| - 1].songs|
  }

  /** The number of slots whose selectedMembers include the member. */
  function SlotsWith(slots: seq<SetlistSong>, memberId: string): (n: nat)
    ensures n <= |slots|
  {
    if slots == [] then 0
    else SlotsWith(slots[..|slots| - 1], memberId) + (if memberId in slots[|slots| - 1].selectedMembers then 1 else 0)
  }

  /** The number of slots, over all setlists, that list the member. */
  function Participation(setlists: seq<Setlist>, memberId: string): (n: nat)
    ensures n <= TotalSlots(setlists)
  {
    if setlists == [] then 0
    else Participation(setlists[..|setlists| - 1], memberId) + SlotsWith(setlists[|setlists| - 1].songs, memberId)
  }

  /**
    `(count / total * 100).toFixed(1)` as an integer number of tenths of a
    percent: the exact rate rounded half up. A zero total gives 0.
  */
  function RoundedTenths(count: nat, total: nat): nat
  {
    if total == 0 then 0 else (2000 * count + total) / (2 * total)
  }

  /** Floor division facts for a positive divisor. */
  lemma DivBounds(a: nat, b: nat)
    requires b > 0
    ensures (a / b) * b <= a < (a / b) * b + b
  {
  }

  /** For a positive divisor, a / b >= k exactly when a >= k * b. */
  lemma DivAtLeast(a: nat, b: nat, k: nat)
    requires b > 0
    ensures a / b >= k <==> a >= k * b
  {
    var q := a / b;
    DivBounds(a, b);
    if q >= k {
      assert q * b >= k * b by { MulMonotone(k, q, b); }
    } else {
      assert (q + 1) * b <= k * b by { MulMonotone(q + 1, k, b); }
    }
  }

  lemma MulMonotone(x: nat, y: nat, m: nat)
    requires x <= y
    ensures x * m <= y * m
  {
    assert y * m == x * m + (y - x) * m;
  }

  /** Dividing an inequality by a positive real. */
  lemma DivideBounds(lo: real, x: real, hi: real, t: real)
    requires t > 0.0 && lo * t <= x < hi * t
    ensures lo <= x / t < hi
  {
    assert (x / t) * t == x;
  }

  /** The rounded value is within half a tenth of the exact percentage. */
  lemma RoundedTenthsBounds(count: nat, total: nat)
    requires total > 0
    ensures var q := RoundedTenths(count, total) as real;
      q - 0.5 <= 1000.0 * (count as real) / (total as real) < q + 0.5
  {
    var q := RoundedTenths(count, total);
    DivBounds(2000 * count + total, 2 * total);
    assert 2 * (q * total) <= 2000 * count + total < 2 * (q * total) + 2 * total;
    var t, c, qr := total as real, count as real, q as real;
    var m := qr * t;
    assert (q * total) as real == m;
    assert 2.0 * m <= 2000.0 * c + t < 2.0 * m + 2.0 * t;
    assert (qr - 0.5) * t == m - 0.5 * t;
    assert (qr + 0.5) * t == m + 0.5 * t;
    DivideBounds(qr - 0.5, 1000.0 * c, qr + 0.5, t);
  }

  /** A count no larger than its total rounds to at most 100.0%. */
  lemma RoundedTenthsAtMostHundred(count: nat, total: nat)
    requires count <= total
    ensures RoundedTenths(count, total) <= 1000
  {
    if total > 0 {
      DivAtLeast(2000 * count + total, 2 * total, 1001);
    }
  }
}
