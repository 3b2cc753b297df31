module Ranges {
  // The table of code address ranges (beam_ranges.c).  Each code index has a sorted
  // table; a new one is staged from the new modules and the old table's unpurged
  // ranges, and a lookup starts its binary search wherever the last one ended.

  import opened Options

  const NUM_CODE_IX: nat := 3

  /** The code from start up to but not including end; empty once purged. */
  datatype Range = Range(start: nat, end: nat)

  predicate Live(r: Range) {
    r.start < r.end
  }

  predicate In(pc: nat, r: Range) {
    r.start <= pc < r.end
  }

  predicate Apart(r: Range, q: Range) {
    r.end <= q.start || q.end <= r.start
  }

  /** Sorted by address and disjoint. */
  predicate Ordered(rows: seq<Range>) {
    && (forall i :: 0 <= i < |rows| ==> rows[i].start <= rows[i].end)
    && (forall i, j :: 0 <= i < j < |rows| ==> rows[i].end <= rows[j].start && rows[i].start < rows[j].start)
  }

  // ----- filtering and sorting

  /** The ranges that have not been purged. */
  function Unpurged(rows: seq<Range>): seq<Range> {
    if rows == [] then []
    else (if Live(rows[0]) then [rows[0]] else []) + Unpurged(rows[1..])
  }

  lemma {:induction false} UnpurgedIn(rows: seq<Range>, r: Range)
    ensures r in Unpurged(rows) <==> r in rows && Live(r)
  {
    if rows != [] {
      UnpurgedIn(rows[1..], r);
      assert rows == [rows[0]] + rows[1..];
    }
  }

  lemma {:induction false} UnpurgedOrdered(rows: seq<Range>)
    requires Ordered(rows)
    ensures Ordered(Unpurged(rows)) && |Unpurged(rows)| <= |rows|
  {
    if rows != [] {
      UnpurgedOrdered(rows[1..]);
      forall q | q in Unpurged(rows[1..]) ensures rows[0].end <= q.start && rows[0].start < q.start {
        UnpurgedIn(rows[1..], q);
      }
      ConsOrdered(rows[0], Unpurged(rows[1..]));
    }
  }

  /** t goes before the first range that does not start below it. */
  function Insert(t: Range, xs: seq<Range>): (r: seq<Range>)
    ensures |r| == |xs| + 1
  {
    if xs == [] then [t]
    else if t.start > xs[0].start then [xs[0]] + Insert(t, xs[1..])
    else [t] + xs
  }

  lemma {:induction false} InsertIn(t: Range, xs: seq<Range>, r: Range)
    ensures r in Insert(t, xs) <==> r == t || r in xs
  {
    if xs != [] {
      InsertIn(t, xs[1..], r);
      assert xs == [xs[0]] + xs[1..];
    }
  }

  predicate ApartFrom(t: Range, xs: seq<Range>) {
    forall i :: 0 <= i < |xs| ==> Apart(t, xs[i])
  }

  predicate AllLive(xs: seq<Range>) {
    forall i :: 0 <= i < |xs| ==> Live(xs[i])
  }

  lemma ConsOrdered(x: Range, xs: seq<Range>)
    requires Ordered(xs) && x.start <= x.end && forall r :: r in xs ==> x.end <= r.start && x.start < r.start
    ensures Ordered([x] + xs)
  {
    assert forall i :: 0 <= i < |xs| ==> xs[i] in xs;
  }

  lemma {:induction false} InsertOrdered(t: Range, xs: seq<Range>)
    requires Live(t) && AllLive(xs) && Ordered(xs) && ApartFrom(t, xs)
    ensures Ordered(Insert(t, xs)) && AllLive(Insert(t, xs))
  {
    if xs == [] {
    } else if t.start > xs[0].start {
      InsertOrdered(t, xs[1..]);
      forall r | r in Insert(t, xs[1..]) ensures xs[0].end <= r.start && xs[0].start < r.start {
        InsertIn(t, xs[1..], r);
      }
      ConsOrdered(xs[0], Insert(t, xs[1..]));
    } else {
      assert t.end <= xs[0].start;
      ConsOrdered(t, xs);
    }
  }

  /** The new ranges, each put into its place. */
  function Sort(news: seq<Range>, old_: seq<Range>): (r: seq<Range>)
    ensures |r| == |news| + |old_|
  {
    if news == [] then old_ else Insert(news[0], Sort(news[1..], old_))
  }

  lemma {:induction false} SortIn(news: seq<Range>, old_: seq<Range>, r: Range)
    ensures r in Sort(news, old_) <==> r in news || r in old_
  {
    if news != [] {
      SortIn(news[1..], old_, r);
      InsertIn(news[0], Sort(news[1..], old_), r);
      assert news == [news[0]] + news[1..];
    }
  }

  /** The new ranges overlap neither one another nor the old ones. */
  predicate Fit(news: seq<Range>, old_: seq<Range>) {
    && AllLive(news) && AllLive(old_)
    && (forall i, j :: 0 <= i < j < |news| ==> Apart(news[i], news[j]))
    && (forall i :: 0 <= i < |news| ==> ApartFrom(news[i], old_))
  }

  lemma {:induction false} SortOrdered(news: seq<Range>, old_: seq<Range>)
    requires Ordered(old_) && Fit(news, old_)
    ensures Ordered(Sort(news, old_)) && AllLive(Sort(news, old_))
  {
    if news != [] {
      var rest := Sort(news[1..], old_);
      SortOrdered(news[1..], old_);
      forall i | 0 <= i < |rest| ensures Apart(news[0], rest[i]) {
        SortIn(news[1..], old_, rest[i]);
        if rest[i] in news[1..] {
          var j :| 0 <= j < |news[1..]| && news[1..][j] == rest[i];
          assert news[j + 1] == rest[i];
        } else {
          var j :| 0 <= j < |old_| && old_[j] == rest[i];
        }
      }
      InsertOrdered(news[0], rest);
    }
  }

  /** Any sorting algorithm gives this table: an ordered table is determined by the
      ranges in it. */
  lemma {:induction false} OrderedUnique(a: seq<Range>, b: seq<Range>)
    requires Ordered(a) && Ordered(b) && forall r :: r in a <==> r in b
    ensures a == b
  {
    assert a != [] ==> a[0] in a && a[0] in b;
    assert b != [] ==> b[0] in b && b[0] in a;
    if a != [] && b != [] {
      assert a[0] == b[0];
      forall r ensures r in a[1..] <==> r in b[1..] {
        OrderedTail(a, r);
        OrderedTail(b, r);
      }
      OrderedUnique(a[1..], b[1..]);
      assert a == [a[0]] + a[1..] && b == [b[0]] + b[1..];
    }
  }

  lemma OrderedTail(a: seq<Range>, r: Range)
    requires Ordered(a) && a != []
    ensures r in a[1..] <==> r in a && r != a[0]
  {
    assert a == [a[0]] + a[1..];
  }

  // ----- in place

  lemma {:induction false} InsertAt(t: Range, xs: seq<Range>, d: nat)
    requires d <= |xs| && (forall j :: 0 <= j < d ==> t.start > xs[j].start) && (d < |xs| ==> t.start <= xs[d].start)
    ensures Insert(t, xs) == xs[..d] + [t] + xs[d..]
  {
    if d > 0 {
      InsertAt(t, xs[1..], d - 1);
      assert xs[..d] == [xs[0]] + xs[1..][..d - 1] && xs[1..][d - 1..] == xs[d..];
    }
  }

  /** Moves the rows that start below t down by one. */
  method ShiftDown(mp: array<Range>, k: nat, n: nat, t: Range, ghost xs: seq<Range>) returns (i: nat)
    requires k < n <= mp.Length && mp[k + 1..n] == xs
    modifies mp
    ensures k <= i < n && (forall j :: k <= j < i ==> mp[j] == xs[j - k]) && (forall j :: i < j < n ==> mp[j] == xs[j - k - 1])
    ensures (forall j :: 0 <= j < i - k ==> t.start > xs[j].start) && (i < n - 1 ==> t.start <= xs[i - k].start)
    ensures forall j :: 0 <= j < k || n <= j < mp.Length ==> mp[j] == old(mp[j])
  {
    i := k;
    while i < n - 1 && t.start > mp[i + 1].start
      invariant k <= i < n
      invariant forall j :: k <= j < i ==> mp[j] == xs[j - k]
      invariant forall j :: 0 <= j < i - k ==> t.start > xs[j].start
      invariant forall j :: i < j < n ==> mp[j] == xs[j - k - 1]
      invariant forall j :: 0 <= j < k || n <= j < mp.Length ==> mp[j] == old(mp[j])
    {
      mp[i] := mp[i + 1];
      i := i + 1;
    }
  }

  /** Sifts mp[k] up into the rows after it. */
  method Sift(mp: array<Range>, k: nat, n: nat)
    requires k < n <= mp.Length
    modifies mp
    ensures mp[k..n] == Insert(old(mp[k]), old(mp[k + 1..n]))
    ensures forall j :: 0 <= j < k || n <= j < mp.Length ==> mp[j] == old(mp[j])
  {
    ghost var xs := mp[k + 1..n];
    var t := mp[k];
    var i := ShiftDown(mp, k, n, t, xs);
    mp[i] := t;
    InsertAt(t, xs, i - k);
    assert mp[k..n] == xs[..i - k] + [t] + xs[i - k..];
  }

  lemma SortStep(news: seq<Range>, old_: seq<Range>, k: nat)
    requires k < |news|
    ensures Sort(news[k..], old_) == Insert(news[k], Sort(news[k + 1..], old_))
  {
    assert news[k..][1..] == news[k + 1..];
  }

  /** Sorts the rows, of which the first k are new and the rest sorted.  The C library's
      sort is used for more than one new row; it is replaced here by one sift for each. */
  method SortRows(mp: array<Range>, k: nat, n: nat)
    requires k <= n <= mp.Length
    modifies mp
    ensures mp[..n] == Sort(old(mp[..k]), old(mp[k..n]))
  {
    ghost var news, rest := mp[..k], mp[k..n];
    var i := k;
    assert news[k..] == [];
    while i > 0
      invariant i <= k && mp[i..n] == Sort(news[i..], rest)
      invariant forall j :: 0 <= j < i ==> mp[j] == news[j]
    {
      i := i - 1;
      SortStep(news, rest, i);
      Sift(mp, i, n);
    }
    assert news[0..] == news && mp[0..n] == mp[..n];
  }

  lemma UnpurgedStep(rows: seq<Range>, i: nat)
    requires i < |rows|
    ensures Unpurged(rows[i..]) == (if Live(rows[i]) then [rows[i]] else []) + Unpurged(rows[i + 1..])
  {
    assert rows[i..][1..] == rows[i + 1..];
  }

  lemma {:induction false} UnpurgedShort(rows: seq<Range>)
    ensures |Unpurged(rows)| <= |rows|
  {
    if rows != [] {
      UnpurgedShort(rows[1..]);
    }
  }

  /** Appends the unpurged rows of src after the first w rows of mp. */
  method CopyUnpurged(src: array<Range>, n: nat, mp: array<Range>, w: nat) returns (w': nat)
    requires n <= src.Length && w + n <= mp.Length && (src != mp || n == 0)
    modifies mp
    ensures w' == w + |Unpurged(src[..n])| <= w + n
    ensures mp[..w'] == old(mp[..w]) + Unpurged(src[..n]) && src[..n] == old(src[..n])
  {
    ghost var rows, was := src[..n], mp[..w];
    w' := w;
    var i := 0;
    assert rows[0..] == rows;
    UnpurgedShort(rows);
    while i < n
      invariant i <= n && w <= w' <= w + i && src[..n] == rows
      invariant mp[..w'] + Unpurged(rows[i..]) == was + Unpurged(rows)
    {
      UnpurgedStep(rows, i);
      assert src[i] == rows[i];
      if src[i].start < src[i].end {
        ghost var done := mp[..w'];
        mp[w'] := src[i];
        assert mp[..w' + 1] == done + [rows[i]];
        w' := w' + 1;
      }
      i := i + 1;
    }
    assert mp[..w'] == was + Unpurged(rows);
  }

  /** The new rows and the unpurged old ones, sorted. */
  method BuildTable(src: array<Range>, n: nat, mp: array<Range>, inserted: nat) returns (total: nat)
    requires n <= src.Length && inserted + n <= mp.Length && (src != mp || n == 0)
    modifies mp
    ensures total <= mp.Length && mp[..total] == Sort(old(mp[..inserted]), Unpurged(old(src[..n])))
  {
    ghost var news, rows := mp[..inserted], src[..n];
    total := CopyUnpurged(src, n, mp, inserted);
    assert mp[..inserted] == news && mp[inserted..total] == Unpurged(rows);
    if inserted > 0 {
      SortRows(mp, inserted, total);
    }
  }

  // ----- lookup

  /** Finds the range that contains pc, from any start point. */
  method FindRange(rows: array<Range>, n: nat, mid0: nat, pc: nat) returns (found: Option<nat>)
    requires n <= rows.Length && Ordered(rows[..n]) && (mid0 < n || n == 0)
    ensures found.Some? ==> found.value < n && In(pc, rows[found.value])
    ensures found.None? ==> forall i :: 0 <= i < n ==> !In(pc, rows[i])
  {
    var low, high, mid := 0, n, mid0;
    while low < high
      invariant 0 <= low <= high <= n && (low < high ==> low <= mid < high)
      invariant forall i :: 0 <= i < low ==> rows[i].end <= pc
      invariant forall i :: high <= i < n ==> pc < rows[i].start
    {
      assert forall i :: 0 <= i < n ==> rows[..n][i] == rows[i];
      if pc < rows[mid].start {
        assert forall i :: mid < i < n ==> rows[mid].start < rows[i].start;
        high := mid;
      } else if pc >= rows[mid].end {
        assert forall i :: 0 <= i < mid ==> rows[i].end <= rows[mid].start;
        low := mid + 1;
      } else {
        return Some(mid);
      }
      mid := low + (high - low) / 2;
    }
    found := None;
  }

  /** The function of a module that pc is in: functions[i] up to functions[i + 1]. */
  method FindFunction(functions: seq<nat>, pc: nat) returns (found: Option<nat>)
    requires |functions| > 0 && forall i, j :: 0 <= i < j < |functions| ==> functions[i] < functions[j]
    ensures found.Some? ==> found.value + 1 < |functions| && functions[found.value] <= pc < functions[found.value + 1]
    ensures found.None? <==> pc < functions[0] || functions[|functions| - 1] <= pc
  {
    var low, high := 0, |functions| - 1;
    while low < high
      invariant 0 <= low <= high < |functions|
      invariant low > 0 ==> functions[low] <= pc
      invariant high < |functions| - 1 ==> pc < functions[high]
    {
      var mid := low + (high - low) / 2;
      if pc < functions[mid] {
        high := mid;
      } else if pc < functions[mid + 1] {
        return Some(mid);
      } else {
        low := mid + 1;
      }
    }
    found := None;
  }

  // ----- commit and purge, as sets of ranges

  ghost predicate Contains(live: set<Range>, rows: seq<Range>) {
    forall r :: r in live <==> r in rows && Live(r)
  }

  /** The committed table is sorted and has the old live ranges and the new ones. */
  lemma CommitMeaning(rows: seq<Range>, live: set<Range>, staged: seq<Range>)
    requires Ordered(rows) && Contains(live, rows) && Fit(staged, Unpurged(rows))
    ensures Ordered(Sort(staged, Unpurged(rows)))
    ensures Contains(live + (set r | r in staged), Sort(staged, Unpurged(rows)))
  {
    var old_ := Unpurged(rows);
    UnpurgedOrdered(rows);
    SortOrdered(staged, old_);
    var all := Sort(staged, old_);
    forall r ensures r in live + (set x | x in staged) <==> r in all && Live(r) {
      SortIn(staged, old_, r);
      UnpurgedIn(rows, r);
      if r in all {
        var i :| 0 <= i < |all| && all[i] == r;
        assert Live(all[i]);
      }
    }
  }

  /** Purging empties one range and keeps the order. */
  lemma PurgeMeaning(rows: seq<Range>, live: set<Range>, i: nat)
    requires Ordered(rows) && Contains(live, rows) && i < |rows| && Live(rows[i])
    ensures var rows' := rows[i := Range(rows[i].start, rows[i].start)];
      Ordered(rows') && Contains(live - {rows[i]}, rows')
  {
    var rows' := rows[i := Range(rows[i].start, rows[i].start)];
    forall r ensures r in live - {rows[i]} <==> r in rows' && Live(r) {
      if r in rows && r != rows[i] {
        var j :| 0 <= j < |rows| && rows[j] == r;
        assert rows'[j] == r;
      }
      if r in rows' && Live(r) {
        var j :| 0 <= j < |rows'| && rows'[j] == r;
        assert rows[j] == r;
      }
    }
  }

  // ----- the tables of the three code indices

  /** Ended: the new table is made, and waits for the code barrier before the switch. */
  datatype Phase = Idle | Staging(room: nat) | Ended

  class RangeTables {
    var modules: seq<array<Range>>
    var n: seq<nat>
    var mid: seq<nat>
    var written: nat              // write_ptr, from the start of the staging table
    var active: nat
    var staging: nat
    ghost var phase: Phase
    ghost var live: set<Range>    // committed and not purged
    ghost var staged: seq<Range>

    ghost predicate Shape()
      reads this
    {
      && |modules| == |n| == |mid| == NUM_CODE_IX && active < NUM_CODE_IX && staging < NUM_CODE_IX
      && n[active] <= modules[active].Length && (mid[active] < n[active] || n[active] == 0)
      && (forall i, j :: 0 <= i < j < NUM_CODE_IX ==> modules[i] != modules[j])
    }

    ghost function Rows(): seq<Range>
      requires Shape()
      reads this, modules[active]
    {
      modules[active][..n[active]]
    }

    ghost predicate Valid()
      reads this, if active < |modules| then {modules[active]} else {}, if staging < |modules| then {modules[staging]} else {}
    {
      && Shape() && Ordered(Rows()) && Contains(live, Rows())
      && match phase
         case Idle => active != staging
         case Staging(room) =>
           && (active == staging ==> n[active] == 0)
           && written == |staged| <= room && n[active] + room <= modules[staging].Length
           && modules[staging][..written] == staged && Fit(staged, Unpurged(Rows()))
         case Ended => Ready()
    }

    /** The staging table is ready to be switched to. */
    ghost predicate Ready()
      reads this, if staging < |modules| then {modules[staging]} else {}
    {
      && |modules| == |n| == |mid| == NUM_CODE_IX && staging < NUM_CODE_IX
      && n[staging] <= modules[staging].Length && (mid[staging] < n[staging] || n[staging] == 0)
      && Ordered(modules[staging][..n[staging]])
      && Contains(live + (set r | r in staged), modules[staging][..n[staging]])
    }

    /** The initial load: both indices are the same, and the table has room for 128. */
    constructor ()
      ensures Valid() && phase == Staging(128) && live == {} && staged == [] && fresh(modules[0])
    {
      var a, b, c := new Range[128], new Range[0], new Range[0];
      modules, n, mid, written, active, staging := [a, b, c], [0, 0, 0], [0, 0, 0], 0, 0, 0;
      phase, live, staged := Staging(128), {}, [];
    }

    /** erts_start_staging_ranges. */
    method StartStaging(numNew: nat)
      requires Valid() && phase.Idle?
      modifies this
      ensures Valid() && phase == Staging(numNew) && staged == [] && live == old(live)
      ensures active == old(active) && modules[active] == old(modules[active]) && n[active] == old(n[active])
      ensures fresh(modules[staging])
    {
      var need := n[active] + numNew;
      var a := new Range[need];
      modules := modules[staging := a];
      written := 0;
      phase, staged := Staging(numNew), [];
      UnpurgedAllLive(Rows());
    }

    /** erts_update_ranges: one of the modules that room was made for. */
    method Update(start: nat, size: nat)
      requires Valid() && phase.Staging? && |staged| < phase.room && size > 0
      requires forall i :: 0 <= i < |staged| ==> Apart(staged[i], Range(start, start + size))
      requires forall r :: r in live ==> Apart(Range(start, start + size), r)
      modifies this`written, this`staged, modules[staging]
      ensures Valid() && staged == old(staged) + [Range(start, start + size)]
    {
      var r := Range(start, start + size);
      ghost var was, rows := modules[staging][..written], Rows();
      StagedFits(staged, rows, live, r);
      modules[staging][written] := r;
      written := written + 1;
      staged := staged + [r];
      assert modules[staging][..written] == was + [r];
      assert Rows() == rows;
    }

    method AbortStaging()
      requires Valid() && phase.Staging? && active != staging
      modifies this`phase
      ensures Valid() && phase.Idle?
    {
      phase := Idle;
    }

    /** erts_end_staging_ranges.  Lookups go on finding what is committed; only in the
        initial load, where the indices are the same, do they find the new table at once. */
    method EndStaging()
      requires Valid() && phase.Staging?
      modifies this`n, this`mid, this`phase, this`live, modules[staging]
      ensures Valid() && phase.Ended?
      ensures live == if active == staging then old(live) + (set r | r in staged) else old(live)
    {
      BuildStaging();
      phase := Ended;
      if active == staging {
        live := live + (set r | r in staged);
      }
    }

    /** The live and the staged ranges go to the staging table. */
    method BuildStaging()
      requires Valid() && phase.Staging?
      modifies this`n, this`mid, modules[staging]
      ensures Shape() && Ready() && (active != staging ==> Rows() == old(Rows()))
    {
      ghost var rows := Rows();
      var total := BuildTable(modules[active], n[active], modules[staging], written);
      CommitMeaning(rows, live, staged);
      n, mid := n[staging := total], mid[staging := total / 2];
      assert active != staging ==> Rows() == rows;
    }

    /** The switch of the indices. */
    method CommitStaging()
      requires Valid() && phase.Ended?
      modifies this`active, this`staging, this`phase, this`live
      ensures Valid() && phase.Idle? && active == old(staging)
      ensures live == old(live) + (set r | r in old(staged))
    {
      active, staging := staging, (staging + 1) % NUM_CODE_IX;
      phase, live := Idle, live + (set r | r in staged);
    }

    /** Finds the range of pc, and remembers where; at any time, whatever is staged. */
    method Lookup(pc: nat) returns (found: Option<Range>)
      requires Valid()
      modifies this`mid
      ensures Valid()
      ensures found.Some? ==> found.value in live && In(pc, found.value)
      ensures found.None? <==> forall r :: r in live ==> !In(pc, r)
    {
      ghost var rows := Rows();
      var i := FindRange(modules[active], n[active], mid[active], pc);
      if i.Some? {
        mid := mid[active := i.value];
        found := Some(modules[active][i.value]);
        assert rows[i.value] == found.value;
      } else {
        assert forall j :: 0 <= j < n[active] ==> rows[j] == modules[active][j];
        found := None;
      }
    }

    /** erts_remove_from_ranges: the code of a live module.  A purge and a load exclude one
        another by the modification permission. */
    method Remove(r: Range)
      requires Valid() && phase.Idle? && r in live
      modifies this`mid, this`live, modules[active]
      ensures Valid() && live == old(live) - {r}
    {
      ghost var rows := Rows();
      var i := FindRange(modules[active], n[active], mid[active], r.start);
      RowAt(rows, r, i);
      mid := mid[active := i.value];
      modules[active][i.value] := Range(r.start, r.start);
      PurgeMeaning(rows, live, i.value);
      live := live - {r};
      assert Rows() == rows[i.value := Range(r.start, r.start)];
    }
  }

  lemma {:induction false} UnpurgedAllLive(rows: seq<Range>)
    ensures AllLive(Unpurged(rows))
  {
    if rows != [] {
      UnpurgedAllLive(rows[1..]);
    }
  }

  lemma StagedFits(staged: seq<Range>, rows: seq<Range>, live: set<Range>, r: Range)
    requires Fit(staged, Unpurged(rows)) && Contains(live, rows) && Live(r)
    requires forall i :: 0 <= i < |staged| ==> Apart(staged[i], r)
    requires forall q :: q in live ==> Apart(r, q)
    ensures Fit(staged + [r], Unpurged(rows))
  {
    var old_ := Unpurged(rows);
    forall i | 0 <= i < |old_| ensures Apart(r, old_[i]) {
      UnpurgedIn(rows, old_[i]);
    }
  }

  /** The search for the start of a live range ends at that range. */
  lemma RowAt(rows: seq<Range>, r: Range, i: Option<nat>)
    requires Ordered(rows) && r in rows && Live(r)
    requires i.Some? ==> i.value < |rows| && In(r.start, rows[i.value])
    requires i.None? ==> forall j :: 0 <= j < |rows| ==> !In(r.start, rows[j])
    ensures i.Some? && rows[i.value] == r
  {
    var j :| 0 <= j < |rows| && rows[j] == r;
    assert In(r.start, rows[j]);
  }
}
