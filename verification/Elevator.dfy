// The disk scheduler: which request the disk daemon serves next, and how it drains a set of
// requests. A position is counted in sectors, eight to a track.
module Elevator {
  import opened Base
  import opened Semaphore

  const MIN_START: int := 10000

  // An entry of ds_arr; its request is pending while the terminal waits, at value -1.
  datatype Request = Request(sem: Sem, op: int, track: int, sector: int)

  function Place(r: Request): int {
    Position(r.track, r.sector)
  }

  predicate Pending(r: Request) {
    r.sem.val == -1
  }

  // How far r lies ahead of the position in direction dir, 0 being up; negative if behind.
  function Ahead(r: Request, position: int, dir: int): int {
    if dir == 0 then Place(r) - position else position - Place(r)
  }

  // The request may be chosen.
  predicate Eligible(r: Request, position: int, dir: int) {
    Pending(r) && 0 <= Ahead(r, position, dir) < MIN_START
  }

  // rv is the first of the nearest eligible requests, or -1 if there is none.
  ghost predicate Nearest(ds: seq<Request>, position: int, dir: int, rv: int) {
    if rv == -1 then forall i | 0 <= i < |ds| :: !Eligible(ds[i], position, dir)
    else
      && 0 <= rv < |ds| && Eligible(ds[rv], position, dir)
      && (forall i | 0 <= i < |ds| && Eligible(ds[i], position, dir) ::
            Ahead(ds[rv], position, dir) <= Ahead(ds[i], position, dir))
      && (forall i | 0 <= i < rv && Eligible(ds[i], position, dir) ::
            Ahead(ds[rv], position, dir) < Ahead(ds[i], position, dir))
  }

  // What the scan has found in the first i entries.
  ghost predicate Best(ds: seq<Request>, position: int, dir: int, rv: int, min: int) {
    && Nearest(ds, position, dir, rv)
    && min == if rv == -1 then MIN_START else Ahead(ds[rv], position, dir)
  }

  lemma BestNext(ds: seq<Request>, i: nat, position: int, dir: int, rv: int, min: int)
    requires i < |ds| && Best(ds[..i], position, dir, rv, min) && (rv == -1 || 0 <= rv < i)
    ensures var value := Ahead(ds[i], position, dir);
            if Pending(ds[i]) && 0 <= value < min then Best(ds[..i + 1], position, dir, i, value)
            else Best(ds[..i + 1], position, dir, rv, min)
  {
    assert forall j | 0 <= j < i :: ds[..i + 1][j] == ds[..i][j];
    assert ds[..i + 1][i] == ds[i];
  }

  method TaskerHelper(ds_arr: array<Request>, track: int, sector: int, dir: int) returns (rv: int)
    ensures Nearest(ds_arr[..], Position(track, sector), dir, rv)
  {
    rv := -1;
    var min := MIN_START;
    ghost var ds, position := ds_arr[..], Position(track, sector);
    if dir == 0 {
      var i := 0;
      while i < ds_arr.Length
        invariant 0 <= i <= ds_arr.Length && -1 <= rv < i
        invariant Best(ds[..i], position, dir, rv, min)
      {
        BestNext(ds, i, position, dir, rv, min);
        if ds_arr[i].sem.val == -1 {
          var value := (ds_arr[i].track - track) * 8 + ds_arr[i].sector - sector;
          if value >= 0 && value < min {
            min := value;
            rv := i;
          }
        }
        i := i + 1;
      }
    } else {
      var i := 0;
      while i < ds_arr.Length
        invariant 0 <= i <= ds_arr.Length && -1 <= rv < i
        invariant Best(ds[..i], position, dir, rv, min)
      {
        BestNext(ds, i, position, dir, rv, min);
        if ds_arr[i].sem.val == -1 {
          var value := (track - ds_arr[i].track) * 8 + sector - ds_arr[i].sector;
          if value >= 0 && value < min {
            min := value;
            rv := i;
          }
        }
        i := i + 1;
      }
    }
    assert ds[..ds_arr.Length] == ds;
  }

  // The daemon's choice: the nearest request ahead, else it turns round.
  ghost predicate Picks(ds: seq<Request>, position: int, dir: int, num: int, turned: int) {
    (turned == dir && num != -1 && Nearest(ds, position, dir, num))
    || (turned == 1 - dir && Nearest(ds, position, dir, -1) && Nearest(ds, position, turned, num))
  }

  // The part of the daemon's loop that chooses. It finds a request exactly when one is
  // pending closer than MIN_START; otherwise the source goes on to use entry -1.
  method Pick(ds_arr: array<Request>, track: int, sector: int, dir: int) returns (num: int, turned: int)
    requires dir == 0 || dir == 1
    ensures Picks(ds_arr[..], Position(track, sector), dir, num, turned) && (turned == 0 || turned == 1)
    ensures num == -1 <==>
            forall i | 0 <= i < ds_arr.Length && Pending(ds_arr[i]) ::
              Ahead(ds_arr[i], Position(track, sector), 0) <= -MIN_START
              || Ahead(ds_arr[i], Position(track, sector), 0) >= MIN_START
  {
    turned := dir;
    num := TaskerHelper(ds_arr, track, sector, turned);
    if num == -1 {
      turned := 1 - turned;
      num := TaskerHelper(ds_arr, track, sector, turned);
    }
    PickFinds(ds_arr[..], Position(track, sector), dir, num, turned);
    assert forall i | 0 <= i < ds_arr.Length :: ds_arr[..][i] == ds_arr[i];
  }

  lemma PickFinds(ds: seq<Request>, position: int, dir: int, num: int, turned: int)
    requires (dir == 0 || dir == 1) && Picks(ds, position, dir, num, turned)
    ensures num == -1 <==>
            forall i | 0 <= i < |ds| && Pending(ds[i]) ::
              Ahead(ds[i], position, 0) <= -MIN_START || Ahead(ds[i], position, 0) >= MIN_START
  {
    if num == -1 {
      assert forall i | 0 <= i < |ds| :: !Eligible(ds[i], position, dir) && !Eligible(ds[i], position, 1 - dir);
    } else {
      assert Eligible(ds[num], position, turned);
    }
  }

  // ---------- draining a set of requests ----------

  // UNLOCK on the entry's semaphore, once its request is done.
  function Done(r: Request): Request {
    r.(sem := V(r.sem))
  }

  ghost predicate AllServed(ds: seq<Request>) {
    forall i | 0 <= i < |ds| :: !Pending(ds[i])
  }

  // With no new request coming in, the daemon serves nums in this order and is then done.
  ghost predicate Drains(ds: seq<Request>, position: int, dir: int, nums: seq<int>)
    decreases |nums|
  {
    if nums == [] then AllServed(ds) else
      exists turned :: DrainsVia(ds, position, dir, nums, turned)
  }

  ghost predicate DrainsVia(ds: seq<Request>, position: int, dir: int, nums: seq<int>, turned: int)
    requires nums != []
    decreases |nums|, 0
  {
    && 0 <= nums[0] < |ds| && Picks(ds, position, dir, nums[0], turned)
    && Drains(ds[nums[0] := Done(ds[nums[0]])], Place(ds[nums[0]]), turned, nums[1..])
  }

  // All requests and the head lie between lo and hi, closer together than MIN_START.
  ghost predicate Within(ds: seq<Request>, position: int, lo: int, hi: int) {
    && lo <= position <= hi && hi - lo < MIN_START
    && forall i | 0 <= i < |ds| && Pending(ds[i]) :: lo <= Place(ds[i]) <= hi
  }

  ghost predicate Indices(ds: seq<Request>, nums: seq<int>) {
    forall k | 0 <= k < |nums| :: 0 <= nums[k] < |ds|
  }

  // The places of nums, visited from position, never turn back in direction dir.
  ghost predicate Monotone(ds: seq<Request>, position: int, dir: int, nums: seq<int>)
    requires Indices(ds, nums)
    decreases |nums|
  {
    nums == [] || (Ahead(ds[nums[0]], position, dir) >= 0 && Monotone(ds, Place(ds[nums[0]]), dir, nums[1..]))
  }

  function Abs(x: int): int {
    if x < 0 then -x else x
  }

  // How far the head travels, in sectors.
  ghost function Travel(ds: seq<Request>, position: int, nums: seq<int>): int
    requires Indices(ds, nums)
    decreases |nums|
  {
    if nums == [] then 0 else Abs(Place(ds[nums[0]]) - position) + Travel(ds, Place(ds[nums[0]]), nums[1..])
  }

  // Requests that only differ in whether they are pending are in the same places.
  ghost predicate SamePlaces(ds: seq<Request>, es: seq<Request>) {
    |ds| == |es| && forall i | 0 <= i < |ds| :: Place(ds[i]) == Place(es[i])
  }

  lemma {:induction false} PlacesOnly(ds: seq<Request>, es: seq<Request>, position: int, dir: int, nums: seq<int>)
    requires SamePlaces(ds, es) && Indices(ds, nums)
    ensures Monotone(ds, position, dir, nums) == Monotone(es, position, dir, nums)
    ensures Travel(ds, position, nums) == Travel(es, position, nums)
    decreases |nums|
  {
    if nums != [] {
      PlacesOnly(ds, es, Place(ds[nums[0]]), dir, nums[1..]);
    }
  }

  // Every request is served exactly once.
  lemma {:induction false} ServedOnce(ds: seq<Request>, position: int, dir: int, nums: seq<int>)
    requires Drains(ds, position, dir, nums)
    ensures NoDup(nums) && Indices(ds, nums)
    ensures forall i | 0 <= i < |ds| :: i in nums <==> Pending(ds[i])
    decreases |nums|
  {
    if nums != [] {
      var turned :| DrainsVia(ds, position, dir, nums, turned);
      var n := nums[0];
      assert Eligible(ds[n], position, turned);
      var es := ds[n := Done(ds[n])];
      ServedOnce(es, Place(ds[n]), turned, nums[1..]);
      assert nums == [n] + nums[1..];
      assert !Pending(es[n]);
      forall k | 0 <= k < |nums| ensures 0 <= nums[k] < |ds| { assert k == 0 || nums[k] == nums[1..][k - 1]; }
      forall i | 0 <= i < |ds| ensures i in nums <==> Pending(ds[i]) { assert i == n || es[i] == ds[i]; }
      forall j, k | 0 <= j < k < |nums| ensures nums[j] != nums[k] {
        assert nums[k] == nums[1..][k - 1];
        assert j == 0 || nums[j] == nums[1..][j - 1];
        assert nums[k] in nums[1..];
      }
    }
  }

  // With nothing pending behind the head in direction dir, the daemon never turns round.
  lemma {:induction false} OneSweep(ds: seq<Request>, position: int, dir: int, nums: seq<int>, lo: int, hi: int)
    requires (dir == 0 || dir == 1) && Drains(ds, position, dir, nums) && Within(ds, position, lo, hi)
    requires forall i | 0 <= i < |ds| && Pending(ds[i]) :: Ahead(ds[i], position, dir) >= 0
    ensures Indices(ds, nums) && Monotone(ds, position, dir, nums)
    ensures 0 <= Travel(ds, position, nums) <= if dir == 0 then hi - position else position - lo
    decreases |nums|
  {
    if nums != [] {
      ServedOnce(ds, position, dir, nums);
      var turned :| DrainsVia(ds, position, dir, nums, turned);
      var n := nums[0];
      assert turned == dir by {
        assert Eligible(ds[n], position, turned);
        assert Eligible(ds[n], position, dir);
      }
      var es := ds[n := Done(ds[n])];
      assert !Pending(es[n]);
      forall i | 0 <= i < |es| && Pending(es[i]) ensures Ahead(es[i], Place(ds[n]), dir) >= 0 {
        assert Eligible(ds[i], position, dir);
      }
      OneSweep(es, Place(ds[n]), dir, nums[1..], lo, hi);
      PlacesOnly(ds, es, Place(ds[n]), dir, nums[1..]);
    }
  }

  // A request ahead of the head extends the sweep to the requests that follow it.
  lemma SweepOn(ds: seq<Request>, es: seq<Request>, position: int, dir: int, nums: seq<int>, m: nat)
    requires Indices(ds, nums) && m < |nums| && SamePlaces(ds, es) && Ahead(ds[nums[0]], position, dir) >= 0
    requires Indices(es, nums[1..][..m]) && Monotone(es, Place(ds[nums[0]]), dir, nums[1..][..m])
    requires Indices(es, nums[1..][m..])
    requires Monotone(es, if m == 0 then Place(ds[nums[0]]) else Place(es[nums[1..][m - 1]]), 1 - dir, nums[1..][m..])
    ensures Indices(ds, nums[..m + 1]) && Monotone(ds, position, dir, nums[..m + 1])
    ensures Indices(ds, nums[m + 1..]) && Monotone(ds, Place(ds[nums[m]]), 1 - dir, nums[m + 1..])
    ensures Indices(es, nums[1..])
    ensures Travel(ds, position, nums) == Abs(Place(ds[nums[0]]) - position) + Travel(es, Place(ds[nums[0]]), nums[1..])
  {
    hide Place, Ahead;
    assert nums[..m + 1][1..] == nums[1..][..m] && nums[m + 1..] == nums[1..][m..];
    PlacesOnly(ds, es, Place(ds[nums[0]]), dir, nums[1..]);
    PlacesOnly(ds, es, Place(ds[nums[0]]), dir, nums[1..][..m]);
    PlacesOnly(ds, es, Place(ds[nums[m]]), 1 - dir, nums[m + 1..]);
  }

  // A drain is one sweep in the current direction followed by at most one in the other, and
  // the head travels at most twice the distance between the outermost positions.
  lemma {:induction false} TwoSweeps(ds: seq<Request>, position: int, dir: int, nums: seq<int>, lo: int, hi: int)
      returns (k: nat)
    requires (dir == 0 || dir == 1) && Drains(ds, position, dir, nums) && Within(ds, position, lo, hi)
    ensures Indices(ds, nums) && k <= |nums| && Indices(ds, nums[..k]) && Indices(ds, nums[k..])
    ensures Monotone(ds, position, dir, nums[..k])
    ensures Monotone(ds, if k == 0 then position else Place(ds[nums[k - 1]]), 1 - dir, nums[k..])
    ensures 0 <= Travel(ds, position, nums) <= (if dir == 0 then hi - position else position - lo) + (hi - lo)
    ensures Travel(ds, position, nums) <= 2 * (hi - lo)
    decreases |nums|
  {
    ServedOnce(ds, position, dir, nums);
    if nums == [] {
      k := 0;
    } else {
      var turned :| DrainsVia(ds, position, dir, nums, turned);
      var n := nums[0];
      assert Eligible(ds[n], position, turned);
      var es := ds[n := Done(ds[n])];
      assert !Pending(es[n]);
      if turned == dir {
        var m := TwoSweeps(es, Place(ds[n]), dir, nums[1..], lo, hi);
        k := m + 1;
        SweepOn(ds, es, position, dir, nums, m);
      } else {
        k := 0;
        TurnedRound(ds, position, dir, nums, turned, lo, hi);
        assert nums[..0] == [] && nums[0..] == nums;
      }
    }
  }

  // Once the daemon has turned round everything is ahead of it.
  lemma TurnedRound(ds: seq<Request>, position: int, dir: int, nums: seq<int>, turned: int, lo: int, hi: int)
    requires (dir == 0 || dir == 1) && Within(ds, position, lo, hi)
    requires nums != [] && DrainsVia(ds, position, dir, nums, turned) && turned == 1 - dir
    ensures Indices(ds, nums) && Monotone(ds, position, turned, nums)
    ensures 0 <= Travel(ds, position, nums) <= hi - lo
  {
    var n := nums[0];
    assert Eligible(ds[n], position, turned);
    forall i | 0 <= i < |ds| && Pending(ds[i]) ensures Ahead(ds[i], position, turned) >= 0 {
      assert !Eligible(ds[i], position, dir);
    }
    assert DrainsVia(ds, position, turned, nums, turned) by {
      assert Nearest(ds, position, turned, n);
    }
    assert Drains(ds, position, turned, nums);
    OneSweep(ds, position, turned, nums, lo, hi);
  }

  lemma {:induction false} NearestExists(ds: seq<Request>, n: nat, position: int, dir: int) returns (rv: int, min: int)
    requires n <= |ds|
    ensures Best(ds[..n], position, dir, rv, min) && -1 <= rv < n
  {
    if n == 0 {
      rv, min := -1, MIN_START;
    } else {
      rv, min := NearestExists(ds, n - 1, position, dir);
      BestNext(ds, n - 1, position, dir, rv, min);
      var value := Ahead(ds[n - 1], position, dir);
      if Pending(ds[n - 1]) && 0 <= value < min { rv, min := n - 1, value; }
    }
  }

  ghost function PendingSet(ds: seq<Request>): (r: set<int>)
    ensures forall i :: i in r <==> 0 <= i < |ds| && Pending(ds[i])
  {
    set i | 0 <= i < |ds| && Pending(ds[i])
  }

  // The daemon drains every set of requests that lie closer together than MIN_START.
  lemma {:induction false} DrainExists(ds: seq<Request>, position: int, dir: int, lo: int, hi: int)
      returns (nums: seq<int>)
    requires (dir == 0 || dir == 1) && Within(ds, position, lo, hi)
    ensures Drains(ds, position, dir, nums)
    decreases |PendingSet(ds)|
  {
    if AllServed(ds) {
      nums := [];
    } else {
      var w :| 0 <= w < |ds| && Pending(ds[w]);
      var n, min := NearestExists(ds, |ds|, position, dir);
      assert ds[..|ds|] == ds;
      var turned := dir;
      if n == -1 {
        turned := 1 - dir;
        n, min := NearestExists(ds, |ds|, position, turned);
      }
      assert Picks(ds, position, dir, n, turned);
      PickFinds(ds, position, dir, n, turned);
      var es := ds[n := Done(ds[n])];
      assert PendingSet(es) == PendingSet(ds) - {n};
      var rest := DrainExists(es, Place(ds[n]), turned, lo, hi);
      nums := [n] + rest;
      assert nums[1..] == rest;
      assert DrainsVia(ds, position, dir, nums, turned);
    }
  }
}
