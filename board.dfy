/** The Bingo board of gamemodes/bingo.py and gamemodes/lockout_bingo.py:
    cells, the winning lines of an n-by-n board, win detection, who owns
    what, and the end-of-time tallies. */
module Board {
  import opened Util

  /** A Bingo cell: its word and the set of players who marked it. */
  datatype Cell = Cell(text: string, owners: set<string>)

  /** The colour recorded on a claimed Lockout cell. Player colours are not
      part of the player record, so they stay symbolic. */
  datatype Colour = PlayerColour(uuid: string) | Fallback(code: string)

  /** A Lockout-Bingo cell: `{text, done, done_color, owner}`. */
  datatype LockCell = LockCell(text: string, done: bool, doneColour: Option<Colour>, owner: Option<string>)

  // ---------------------------------------------------------------------
  // Winning lines
  // ---------------------------------------------------------------------

  /** `count` indices starting at `start`, `step` apart. */
  function Stride(start: int, step: int, count: int): set<int>
  {
    set k | 0 <= k < count :: start + k * step
  }

  /** Row i: `range(i*n, (i+1)*n)`. */
  function Row(n: int, i: int): set<int>
  {
    Stride(i * n, 1, n)
  }

  /** Column i: `range(i, n*n, n)` for 0 <= i < n. */
  function Col(n: int, i: int): set<int>
  {
    Stride(i, n, n)
  }

  /** The main diagonal `{i*n + i}`. */
  function Diag(n: int): set<int>
  {
    Stride(0, n + 1, n)
  }

  /** The anti-diagonal `{i*n + (n-1-i)}`. */
  function Anti(n: int): set<int>
  {
    Stride(n - 1, n - 1, n)
  }

  /** S covers a full row, a full column, or one of the two diagonals. */
  predicate HasLine(n: int, s: set<int>)
  {
    (exists i :: 0 <= i < n && Row(n, i) <= s)
    || (exists i :: 0 <= i < n && Col(n, i) <= s)
    || Diag(n) <= s
    || Anti(n) <= s
  }

  /** `_has_bingo_indices`: rows, then columns, then the two diagonals. */
  method HasBingoIndices(n: int, indices: set<int>) returns (b: bool)
    ensures b <==> HasLine(n, indices)
  {
    var i := 0;
    while i < n
      invariant 0 <= i && (n >= 0 ==> i <= n)
      invariant forall j :: 0 <= j < i ==> !(Row(n, j) <= indices)
    {
      if Row(n, i) <= indices {
        return true;
      }
      i := i + 1;
    }
    i := 0;
    while i < n
      invariant 0 <= i && (n >= 0 ==> i <= n)
      invariant forall j :: 0 <= j < n ==> !(Row(n, j) <= indices)
      invariant forall j :: 0 <= j < i ==> !(Col(n, j) <= indices)
    {
      if Col(n, i) <= indices {
        return true;
      }
      i := i + 1;
    }
    if Diag(n) <= indices {
      return true;
    }
    b := Anti(n) <= indices;
  }

  lemma MulStrict(a: int, b: int, step: int)
    requires a < b && step >= 1
    ensures a * step < b * step
  {
    assert b * step - a * step == (b - a) * step;
  }

  lemma {:induction false} StrideSize(start: int, step: int, count: nat)
    requires step >= 1 || count <= 1
    ensures |Stride(start, step, count)| == count
  {
    if count > 0 {
      var smaller := Stride(start, step, count - 1);
      StrideSize(start, step, count - 1);
      var last := start + (count - 1) * step;
      forall j | j in Stride(start, step, count)
        ensures j in smaller + {last}
      {
        var k :| 0 <= k < count && j == start + k * step;
        if k < count - 1 {
          assert j in smaller;
        }
      }
      forall j | j in smaller + {last}
        ensures j in Stride(start, step, count)
      {
        if j != last {
          var k :| 0 <= k < count - 1 && j == start + k * step;
        }
      }
      assert Stride(start, step, count) == smaller + {last};
      if last in smaller {
        var k :| 0 <= k < count - 1 && start + k * step == last;
        MulStrict(k, count - 1, step);
      }
    }
  }

  /** Every winning line of an n-by-n board (n >= 1) has exactly n cells. */
  lemma LineSizes(n: int, i: int)
    requires n >= 1
    ensures |Row(n, i)| == n && |Col(n, i)| == n && |Diag(n)| == n && |Anti(n)| == n
  {
    StrideSize(i * n, 1, n);
    StrideSize(i, n, n);
    StrideSize(0, n + 1, n);
    StrideSize(n - 1, n - 1, n);
  }

  lemma SubsetSize(a: set<int>, b: set<int>)
    requires a <= b
    ensures |a| <= |b|
  {
    assert b == a + (b - a);
  }

  /** Fewer marked cells than the board is wide can never make a bingo. */
  lemma FewCellsNoLine(n: int, s: set<int>)
    requires n >= 1 && |s| < n
    ensures !HasLine(n, s)
  {
    if exists i :: 0 <= i < n && Row(n, i) <= s {
      var i :| 0 <= i < n && Row(n, i) <= s;
      LineSizes(n, i);
      SubsetSize(Row(n, i), s);
    }
    if exists i :: 0 <= i < n && Col(n, i) <= s {
      var i :| 0 <= i < n && Col(n, i) <= s;
      LineSizes(n, i);
      SubsetSize(Col(n, i), s);
    }
    LineSizes(n, 0);
    if Diag(n) <= s {
      SubsetSize(Diag(n), s);
    }
    if Anti(n) <= s {
      SubsetSize(Anti(n), s);
    }
  }

  /** Marking more cells never loses a bingo. */
  lemma LineMonotone(n: int, s: set<int>, t: set<int>)
    requires s <= t && HasLine(n, s)
    ensures HasLine(n, t)
  {
    if exists i :: 0 <= i < n && Row(n, i) <= s {
      var i :| 0 <= i < n && Row(n, i) <= s;
      assert Row(n, i) <= t;
    } else if exists i :: 0 <= i < n && Col(n, i) <= s {
      var i :| 0 <= i < n && Col(n, i) <= s;
      assert Col(n, i) <= t;
    }
  }

  /** Row i is the block `i*n .. (i+1)*n - 1` of indices. */
  lemma RowIsBlock(n: int, i: int)
    requires n >= 0
    ensures forall j :: j in Row(n, i) <==> i * n <= j < i * n + n
  {
    forall j | i * n <= j < i * n + n
      ensures j in Row(n, i)
    {
      var k := j - i * n;
      assert i * n + k * 1 == j;
    }
  }

  /** The five-by-five examples: the top row and the main diagonal win. */
  lemma FiveByFiveExamples()
    ensures HasLine(5, {0, 1, 2, 3, 4})
    ensures HasLine(5, {0, 6, 12, 18, 24})
    ensures forall s: set<int> :: |s| < 5 ==> !HasLine(5, s)
  {
    RowIsBlock(5, 0);
    assert Row(5, 0) == {0, 1, 2, 3, 4};
    assert Diag(5) == {0, 6, 12, 18, 24} by {
      forall j | j in Diag(5) ensures j in {0, 6, 12, 18, 24} {
        var k :| 0 <= k < 5 && j == k * 6;
      }
      assert 0 == 0 * 6 && 6 == 1 * 6 && 12 == 2 * 6 && 18 == 3 * 6 && 24 == 4 * 6;
    }
    forall s: set<int> | |s| < 5
      ensures !HasLine(5, s)
    {
      FewCellsNoLine(5, s);
    }
  }

  // ---------------------------------------------------------------------
  // Ownership
  // ---------------------------------------------------------------------

  /** Indices among the first k cells that u has marked. */
  function OwnedUpTo(cells: seq<Cell>, k: nat, u: string): set<int>
    requires k <= |cells|
  {
    if k == 0 then {} else OwnedUpTo(cells, k - 1, u) + (if u in cells[k - 1].owners then {k - 1} else {})
  }

  /** Everyone who has marked one of the first k cells. */
  function OwnersUpTo(cells: seq<Cell>, k: nat): set<string>
    requires k <= |cells|
  {
    if k == 0 then {} else OwnersUpTo(cells, k - 1) + cells[k - 1].owners
  }

  /** The indices u owns on the whole board. */
  function OwnedBy(cells: seq<Cell>, u: string): set<int>
  {
    OwnedUpTo(cells, |cells|, u)
  }

  function Owners(cells: seq<Cell>): set<string>
  {
    OwnersUpTo(cells, |cells|)
  }

  lemma {:induction false} OwnedUpToMeaning(cells: seq<Cell>, k: nat, u: string)
    requires k <= |cells|
    ensures forall i :: i in OwnedUpTo(cells, k, u) <==> 0 <= i < k && u in cells[i].owners
    ensures u in OwnersUpTo(cells, k) <==> OwnedUpTo(cells, k, u) != {}
  {
    if k > 0 {
      OwnedUpToMeaning(cells, k - 1, u);
    }
  }

  /** OwnedBy is exactly the set of cells whose owner set holds u. */
  lemma OwnedByMeaning(cells: seq<Cell>, u: string)
    ensures forall i :: i in OwnedBy(cells, u) <==> 0 <= i < |cells| && u in cells[i].owners
    ensures u in Owners(cells) <==> OwnedBy(cells, u) != {}
  {
    OwnedUpToMeaning(cells, |cells|, u);
  }

  /** The index of the first cell from i on that u has marked (|cells| when
      there is none). */
  function FirstFrom(cells: seq<Cell>, u: string, i: nat): nat
    requires i <= |cells|
    decreases |cells| - i
  {
    if i == |cells| then |cells| else if u in cells[i].owners then i else FirstFrom(cells, u, i + 1)
  }

  /** The first cell u has marked: where u enters `user_indices`. */
  function FirstOwned(cells: seq<Cell>, u: string): nat
  {
    FirstFrom(cells, u, 0)
  }

  lemma {:induction false} FirstFromMeaning(cells: seq<Cell>, u: string, i: nat)
    requires i <= |cells|
    ensures i <= FirstFrom(cells, u, i) <= |cells|
    ensures forall c :: i <= c < FirstFrom(cells, u, i) ==> u !in cells[c].owners
    ensures FirstFrom(cells, u, i) < |cells| ==> u in cells[FirstFrom(cells, u, i)].owners
    decreases |cells| - i
  {
    if i < |cells| && u !in cells[i].owners {
      FirstFromMeaning(cells, u, i + 1);
    }
  }

  /** FirstOwned is the least index of a cell u has marked. */
  lemma FirstOwnedMeaning(cells: seq<Cell>, u: string, c: int)
    requires 0 <= c < |cells| && u in cells[c].owners
    ensures FirstOwned(cells, u) <= c
    ensures (forall c' :: 0 <= c' < c ==> u !in cells[c'].owners) ==> FirstOwned(cells, u) == c
  {
    FirstFromMeaning(cells, u, 0);
  }

  /** Whoever has marked one of the first k cells first did so before k. */
  lemma {:induction false} FirstOwnedBefore(cells: seq<Cell>, k: nat, u: string)
    requires k <= |cells| && u in OwnersUpTo(cells, k)
    ensures FirstOwned(cells, u) < k
  {
    if u in OwnersUpTo(cells, k - 1) {
      FirstOwnedBefore(cells, k - 1, u);
    } else {
      FirstOwnedMeaning(cells, u, k - 1);
    }
  }

  /** Owners are listed in the order of the first cell they marked; owners
      first seen in the same cell may come in any order (a set's order). */
  predicate FirstSeen(cells: seq<Cell>, order: seq<string>)
  {
    forall i, j :: 0 <= i < j < |order| ==> FirstOwned(cells, order[i]) <= FirstOwned(cells, order[j])
  }

  /** What the owner loops have recorded after the first k cells and the
      owners `done` of cell k: each owner once, in order of first
      appearance, with the cells it owns so far. */
  predicate Recorded(cells: seq<Cell>, k: nat, done: set<string>, order: seq<string>, indices: map<string, set<int>>)
    requires k <= |cells|
  {
    Distinct(order)
    && (set u | u in order) == indices.Keys == OwnersUpTo(cells, k) + done
    && (forall u :: u in indices ==> indices[u] == OwnedUpTo(cells, k, u) + (if u in done then {k} else {}) && indices[u] != {})
    && FirstSeen(cells, order)
  }

  /** An owner first seen in cell idx goes after everyone recorded before. */
  lemma FirstSeenAppend(cells: seq<Cell>, idx: int, done: set<string>, order: seq<string>, indices: map<string, set<int>>, o: string)
    requires 0 <= idx < |cells| && Recorded(cells, idx, done, order, indices)
    requires done <= cells[idx].owners && o in cells[idx].owners && o !in indices
    ensures FirstSeen(cells, order + [o])
  {
    OwnedUpToMeaning(cells, idx, o);
    FirstOwnedMeaning(cells, o, idx);
    forall u | u in order
      ensures FirstOwned(cells, u) <= idx
    {
      if u in done {
        FirstOwnedMeaning(cells, u, idx);
      } else {
        assert u in (set v | v in order);
        assert u in OwnersUpTo(cells, idx) + done;
        FirstOwnedBefore(cells, idx, u);
      }
    }
    var r := order + [o];
    forall i, j | 0 <= i < j < |r|
      ensures FirstOwned(cells, r[i]) <= FirstOwned(cells, r[j])
    {
      if j == |order| {
        assert r[i] in order;
      }
    }
  }

  /** One step of the inner loop: owner o of cell idx is recorded. */
  method RecordOwner(cells: seq<Cell>, idx: int, done: set<string>, o: string, order0: seq<string>, indices0: map<string, set<int>>)
    returns (order: seq<string>, indices: map<string, set<int>>)
    requires 0 <= idx < |cells| && Recorded(cells, idx, done, order0, indices0)
    requires done <= cells[idx].owners && o in cells[idx].owners && o !in done
    ensures Recorded(cells, idx, done + {o}, order, indices)
  {
    order, indices := order0, indices0;
    if o !in indices {
      OwnedUpToMeaning(cells, idx, o);
      FirstSeenAppend(cells, idx, done, order, indices, o);
      indices := indices[o := {}];
      order := order + [o];
    }
    indices := indices[o := indices[o] + {idx}];
  }

  /** The inner loop of Bingo's `check_winner`: the owners of cell idx, in
      whatever order the set yields them. */
  method RecordOwners(cells: seq<Cell>, idx: int, order0: seq<string>, indices0: map<string, set<int>>)
    returns (order: seq<string>, indices: map<string, set<int>>)
    requires 0 <= idx < |cells| && Recorded(cells, idx, {}, order0, indices0)
    ensures Recorded(cells, idx + 1, {}, order, indices)
  {
    order, indices := order0, indices0;
    var rest := cells[idx].owners;
    while rest != {}
      invariant rest <= cells[idx].owners
      invariant Recorded(cells, idx, cells[idx].owners - rest, order, indices)
      decreases rest
    {
      var o :| o in rest;
      order, indices := RecordOwner(cells, idx, cells[idx].owners - rest, o, order, indices);
      assert cells[idx].owners - (rest - {o}) == (cells[idx].owners - rest) + {o};
      rest := rest - {o};
    }
  }

  /** The first loop of Bingo's `check_winner`: for each cell in board order,
      and each of its owners in whatever order the set yields them, record
      the cell index under that owner. */
  method CollectOwners(cells: seq<Cell>) returns (order: seq<string>, indices: map<string, set<int>>)
    ensures Distinct(order)
    ensures (set u | u in order) == indices.Keys == Owners(cells)
    ensures forall u :: u in indices ==> indices[u] == OwnedBy(cells, u) && indices[u] != {}
    ensures FirstSeen(cells, order)
  {
    order, indices := [], map[];
    var idx := 0;
    while idx < |cells|
      invariant 0 <= idx <= |cells|
      invariant Recorded(cells, idx, {}, order, indices)
    {
      order, indices := RecordOwners(cells, idx, order, indices);
      idx := idx + 1;
    }
  }

  // ---------------------------------------------------------------------
  // Tallies at the end of the countdown
  // ---------------------------------------------------------------------

  /** The largest cell count among the players listed (0 for none). */
  function MaxCount(order: seq<string>, indices: map<string, set<int>>): nat
    requires forall u :: u in order ==> u in indices
  {
    if order == [] then 0
    else
      var m := MaxCount(order[..|order| - 1], indices);
      var c := |indices[order[|order| - 1]]|;
      if c > m then c else m
  }

  /** The listed players whose count equals m, in list order. */
  function WithCount(order: seq<string>, indices: map<string, set<int>>, m: nat): (r: seq<string>)
    requires forall u :: u in order ==> u in indices
    ensures forall u :: u in r ==> u in order && |indices[u]| == m
    ensures forall u :: u in order && |indices[u]| == m ==> u in r
  {
    if order == [] then []
    else
      var init := WithCount(order[..|order| - 1], indices, m);
      var last := order[|order| - 1];
      assert forall u :: u in order ==> u in order[..|order| - 1] || u == last;
      if |indices[last]| == m then init + [last] else init
  }

  lemma {:induction false} MaxCountIsMax(order: seq<string>, indices: map<string, set<int>>)
    requires forall u :: u in order ==> u in indices
    ensures forall u :: u in order ==> |indices[u]| <= MaxCount(order, indices)
    ensures order != [] ==> exists u :: u in order && |indices[u]| == MaxCount(order, indices)
  {
    if order != [] {
      var init := order[..|order| - 1];
      MaxCountIsMax(init, indices);
      assert forall u :: u in order ==> u in init || u == order[|order| - 1];
      var last := order[|order| - 1];
      assert last in order;
      if init != [] && |indices[last]| <= MaxCount(init, indices) {
        var u :| u in init && |indices[u]| == MaxCount(init, indices);
        assert u in order;
      }
    }
  }

  lemma {:induction false} NoneAtCount(order: seq<string>, indices: map<string, set<int>>, m: nat)
    requires forall u :: u in order ==> u in indices
    requires forall u :: u in order ==> |indices[u]| < m
    ensures WithCount(order, indices, m) == []
  {
    if order != [] {
      NoneAtCount(order[..|order| - 1], indices, m);
    }
  }

  /** The draw detection of Bingo's final check: running maximum, resetting
      the leader list on a strictly larger count and appending on an equal
      one. It ends with every player at the maximum, in list order. */
  method Leaders(order: seq<string>, indices: map<string, set<int>>) returns (maxCount: nat, winners: seq<string>)
    requires forall u :: u in order ==> u in indices
    ensures maxCount == MaxCount(order, indices)
    ensures winners == WithCount(order, indices, maxCount)
  {
    maxCount, winners := 0, [];
    var k := 0;
    while k < |order|
      invariant 0 <= k <= |order|
      invariant maxCount == MaxCount(order[..k], indices)
      invariant winners == WithCount(order[..k], indices, maxCount)
    {
      var uid := order[k];
      var count := |indices[uid]|;
      assert order[..k + 1][..k] == order[..k];
      if count > maxCount {
        MaxCountIsMax(order[..k], indices);
        NoneAtCount(order[..k], indices, count);
        maxCount := count;
        winners := [uid];
      } else if count == maxCount {
        winners := winners + [uid];
      }
      k := k + 1;
    }
    assert order[..k] == order;
  }

  /** Outcome of the final tally: exactly one leader, a draw, or nobody
      scored. A leader has the top count and everybody else fewer cells. */
  lemma LeadersOutcome(order: seq<string>, indices: map<string, set<int>>)
    requires forall u :: u in order ==> u in indices
    ensures var w := WithCount(order, indices, MaxCount(order, indices));
      (order == [] <==> w == [])
      && (forall u :: u in w ==> forall v :: v in order ==> |indices[v]| <= |indices[u]|)
      && (forall v :: v in order && v !in w ==> |indices[v]| < MaxCount(order, indices))
  {
    MaxCountIsMax(order, indices);
    if order != [] {
      var u :| u in order && |indices[u]| == MaxCount(order, indices);
      assert u in WithCount(order, indices, MaxCount(order, indices));
    }
  }

  /** Lockout's final tally: strict `>` keeps the first player to reach the
      top count; nobody wins while every count is 0. */
  function FirstLeader(order: seq<string>, indices: map<string, set<int>>): (r: Option<string>)
    requires forall u :: u in order ==> u in indices
  {
    if order == [] then None
    else
      var prev := FirstLeader(order[..|order| - 1], indices);
      var last := order[|order| - 1];
      if |indices[last]| > MaxCount(order[..|order| - 1], indices) then Some(last) else prev
  }

  lemma {:induction false} FirstLeaderMeaning(order: seq<string>, indices: map<string, set<int>>)
    requires forall u :: u in order ==> u in indices
    ensures FirstLeader(order, indices).None? <==> MaxCount(order, indices) == 0
    ensures FirstLeader(order, indices).Some? ==>
      exists k :: 0 <= k < |order| && order[k] == FirstLeader(order, indices).value
        && |indices[order[k]]| == MaxCount(order, indices)
        && forall j :: 0 <= j < k ==> |indices[order[j]]| < MaxCount(order, indices)
  {
    if order != [] {
      var init := order[..|order| - 1];
      FirstLeaderMeaning(init, indices);
      MaxCountIsMax(init, indices);
      var last := order[|order| - 1];
      if |indices[last]| > MaxCount(init, indices) {
        var k := |order| - 1;
        assert forall j :: 0 <= j < k ==> order[j] in init;
      } else if FirstLeader(init, indices).Some? {
        var k :| 0 <= k < |init| && init[k] == FirstLeader(init, indices).value
          && |indices[init[k]]| == MaxCount(init, indices)
          && forall j :: 0 <= j < k ==> |indices[init[j]]| < MaxCount(init, indices);
        assert order[k] == init[k];
        assert forall j :: 0 <= j < k ==> order[j] == init[j];
      }
    }
  }

  /** The loop of Lockout's final check. */
  method FirstLeaderLoop(order: seq<string>, indices: map<string, set<int>>) returns (maxCount: nat, winner: Option<string>)
    requires forall u :: u in order ==> u in indices
    ensures maxCount == MaxCount(order, indices)
    ensures winner == FirstLeader(order, indices)
  {
    maxCount, winner := 0, None;
    var k := 0;
    while k < |order|
      invariant 0 <= k <= |order|
      invariant maxCount == MaxCount(order[..k], indices)
      invariant winner == FirstLeader(order[..k], indices)
    {
      assert order[..k + 1][..k] == order[..k];
      if |indices[order[k]]| > maxCount {
        maxCount := |indices[order[k]]|;
        winner := Some(order[k]);
      }
      k := k + 1;
    }
    assert order[..k] == order;
  }

  // ---------------------------------------------------------------------
  // Lockout ownership
  // ---------------------------------------------------------------------

  /** `if cell['owner']:` -- a recorded, non-empty owner id. */
  predicate OwnedBySomeone(c: LockCell)
  {
    c.owner.Some? && c.owner.value != ""
  }

  /** Indices among the first k Lockout cells whose owner is u. */
  function LockOwnedUpTo(cells: seq<LockCell>, k: nat, u: string): set<int>
    requires k <= |cells|
  {
    if k == 0 then {}
    else LockOwnedUpTo(cells, k - 1, u) + (if OwnedBySomeone(cells[k - 1]) && cells[k - 1].owner.value == u then {k - 1} else {})
  }

  function LockOwnersUpTo(cells: seq<LockCell>, k: nat): set<string>
    requires k <= |cells|
  {
    if k == 0 then {}
    else LockOwnersUpTo(cells, k - 1) + (if OwnedBySomeone(cells[k - 1]) then {cells[k - 1].owner.value} else {})
  }

  lemma {:induction false} LockOwnedUpToMeaning(cells: seq<LockCell>, k: nat, u: string)
    requires k <= |cells|
    ensures forall i :: i in LockOwnedUpTo(cells, k, u) <==>
      0 <= i < k && OwnedBySomeone(cells[i]) && cells[i].owner.value == u
    ensures u in LockOwnersUpTo(cells, k) <==> LockOwnedUpTo(cells, k, u) != {}
  {
    if k > 0 {
      LockOwnedUpToMeaning(cells, k - 1, u);
    }
  }

  /** The index of the first cell from i on that u has claimed. */
  function LockFirstFrom(cells: seq<LockCell>, u: string, i: nat): nat
    requires i <= |cells|
    decreases |cells| - i
  {
    if i == |cells| then |cells|
    else if OwnedBySomeone(cells[i]) && cells[i].owner.value == u then i
    else LockFirstFrom(cells, u, i + 1)
  }

  /** The first cell u has claimed: where u enters `uuid_cells`. */
  function LockFirstOwned(cells: seq<LockCell>, u: string): nat
  {
    LockFirstFrom(cells, u, 0)
  }

  lemma {:induction false} LockFirstFromMeaning(cells: seq<LockCell>, u: string, i: nat)
    requires i <= |cells|
    ensures i <= LockFirstFrom(cells, u, i) <= |cells|
    ensures forall c :: i <= c < LockFirstFrom(cells, u, i) ==> !(OwnedBySomeone(cells[c]) && cells[c].owner.value == u)
    ensures LockFirstFrom(cells, u, i) < |cells| ==>
      OwnedBySomeone(cells[LockFirstFrom(cells, u, i)]) && cells[LockFirstFrom(cells, u, i)].owner.value == u
    decreases |cells| - i
  {
    if i < |cells| && !(OwnedBySomeone(cells[i]) && cells[i].owner.value == u) {
      LockFirstFromMeaning(cells, u, i + 1);
    }
  }

  /** LockFirstOwned is the least index of a cell u has claimed. */
  lemma LockFirstOwnedMeaning(cells: seq<LockCell>, u: string, c: int)
    requires 0 <= c < |cells| && OwnedBySomeone(cells[c]) && cells[c].owner.value == u
    ensures LockFirstOwned(cells, u) <= c
    ensures (forall c' :: 0 <= c' < c ==> !(OwnedBySomeone(cells[c']) && cells[c'].owner.value == u)) ==> LockFirstOwned(cells, u) == c
  {
    LockFirstFromMeaning(cells, u, 0);
  }

  /** Whoever has claimed one of the first k cells first did so before k. */
  lemma {:induction false} LockFirstOwnedBefore(cells: seq<LockCell>, k: nat, u: string)
    requires k <= |cells| && u in LockOwnersUpTo(cells, k)
    ensures LockFirstOwned(cells, u) < k
  {
    if u in LockOwnersUpTo(cells, k - 1) {
      LockFirstOwnedBefore(cells, k - 1, u);
    } else {
      LockFirstOwnedMeaning(cells, u, k - 1);
    }
  }

  /** Lockout owners are listed strictly in the order of their first
      claimed cell (a cell has one owner, so no two owners share it). */
  predicate LockFirstSeen(cells: seq<LockCell>, order: seq<string>)
  {
    forall i, j :: 0 <= i < j < |order| ==> LockFirstOwned(cells, order[i]) < LockFirstOwned(cells, order[j])
  }

  /** Two orderings of the same owners that both list them strictly by
      first claimed cell start with the same owner. */
  lemma LockOrderHead(cells: seq<LockCell>, a: seq<string>, b: seq<string>)
    requires (|a| > 0 || |b| > 0) && (forall u :: u in a <==> u in b)
    requires LockFirstSeen(cells, a) && LockFirstSeen(cells, b)
    ensures |a| > 0 && |b| > 0 && a[0] == b[0]
  {
    var x := if |a| > 0 then a[0] else b[0];
    assert x in a && x in b;
    assert a[0] in a;
    var k :| 0 <= k < |b| && b[k] == a[0];
    assert b[0] in b;
    var m :| 0 <= m < |a| && a[m] == b[0];
    assert LockFirstOwned(cells, b[0]) <= LockFirstOwned(cells, b[k]);
    assert LockFirstOwned(cells, a[0]) <= LockFirstOwned(cells, a[m]);
  }

  /** ... and so they are the same sequence. */
  lemma {:induction false} LockOrderSame(cells: seq<LockCell>, a: seq<string>, b: seq<string>)
    requires Distinct(a) && Distinct(b) && (forall u :: u in a <==> u in b)
    requires LockFirstSeen(cells, a) && LockFirstSeen(cells, b)
    ensures a == b
    decreases |a|
  {
    if |a| > 0 || |b| > 0 {
      LockOrderHead(cells, a, b);
      var a', b' := a[1..], b[1..];
      assert a == [a[0]] + a' && b == [b[0]] + b';
      forall u
        ensures u in a' <==> u in b'
      {
        if u in a' {
          assert u in a && u != a[0];
        }
        if u in b' {
          assert u in b && u != b[0];
        }
      }
      LockOrderSame(cells, a', b');
    }
  }

  /** The Lockout tally order is fully determined by the board: two
      orderings of the same owners, both strictly by first claimed cell,
      are equal. */
  lemma LockOrderUnique(cells: seq<LockCell>, a: seq<string>, b: seq<string>)
    requires Distinct(a) && Distinct(b) && (set u | u in a) == (set u | u in b)
    requires LockFirstSeen(cells, a) && LockFirstSeen(cells, b)
    ensures a == b
  {
    var inA, inB := set u | u in a, set u | u in b;
    forall w
      ensures w in a <==> w in b
    {
      if w in a {
        assert w in inA;
      }
      if w in b {
        assert w in inB;
      }
    }
    LockOrderSame(cells, a, b);
  }

  /** What Lockout's owner loop has recorded after the first k cells. */
  predicate LockRecorded(cells: seq<LockCell>, k: nat, order: seq<string>, indices: map<string, set<int>>)
    requires k <= |cells|
  {
    Distinct(order)
    && (set u | u in order) == indices.Keys == LockOwnersUpTo(cells, k)
    && (forall u :: u in indices ==> indices[u] == LockOwnedUpTo(cells, k, u) && indices[u] != {})
    && LockFirstSeen(cells, order)
  }

  /** The owner of cell i, seen for the first time, goes after everyone
      recorded before. */
  lemma LockFirstSeenAppend(cells: seq<LockCell>, i: int, order: seq<string>, indices: map<string, set<int>>)
    requires 0 <= i < |cells| && LockRecorded(cells, i, order, indices)
    requires OwnedBySomeone(cells[i]) && cells[i].owner.value !in indices
    ensures LockFirstSeen(cells, order + [cells[i].owner.value])
  {
    var o := cells[i].owner.value;
    LockOwnedUpToMeaning(cells, i, o);
    LockFirstOwnedMeaning(cells, o, i);
    forall u | u in order
      ensures LockFirstOwned(cells, u) < i
    {
      assert u in (set v | v in order);
      LockFirstOwnedBefore(cells, i, u);
    }
    var r := order + [o];
    forall a, b | 0 <= a < b < |r|
      ensures LockFirstOwned(cells, r[a]) < LockFirstOwned(cells, r[b])
    {
      if b == |order| {
        assert r[a] in order;
      }
    }
  }

  /** One step of Lockout's owner loop: cell i is recorded under its owner. */
  method RecordLockOwner(cells: seq<LockCell>, i: int, order0: seq<string>, indices0: map<string, set<int>>)
    returns (order: seq<string>, indices: map<string, set<int>>)
    requires 0 <= i < |cells| && LockRecorded(cells, i, order0, indices0)
    ensures LockRecorded(cells, i + 1, order, indices)
  {
    order, indices := order0, indices0;
    var cell := cells[i];
    if OwnedBySomeone(cell) {
      var o := cell.owner.value;
      if o !in indices {
        LockOwnedUpToMeaning(cells, i, o);
        LockFirstSeenAppend(cells, i, order, indices);
        indices := indices[o := {}];
        order := order + [o];
      }
      indices := indices[o := indices[o] + {i}];
    }
  }

  /** The first loop of Lockout's `check_winner`: owners in the order of
      their first claimed cell. */
  method CollectLockOwners(cells: seq<LockCell>) returns (order: seq<string>, indices: map<string, set<int>>)
    ensures Distinct(order)
    ensures (set u | u in order) == indices.Keys == LockOwnersUpTo(cells, |cells|)
    ensures forall u :: u in indices ==> indices[u] == LockOwnedUpTo(cells, |cells|, u) && indices[u] != {}
    ensures LockFirstSeen(cells, order)
  {
    order, indices := [], map[];
    var i := 0;
    while i < |cells|
      invariant 0 <= i <= |cells|
      invariant LockRecorded(cells, i, order, indices)
    {
      order, indices := RecordLockOwner(cells, i, order, indices);
      i := i + 1;
    }
  }
}
