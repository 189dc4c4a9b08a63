/** A run's checkpoints: each save prunes to the newest, except the retained. The in-memory registry
    prunes by position, the Postgres one by index. */
module Checkpoints {
  datatype Checkpoint = Checkpoint(index: int, body: string)
  datatype Save = Save(checkpoint: Checkpoint, keep: nat, retain: bool)

  function Indexes(rows: seq<Checkpoint>): set<int> {
    set c | c in rows :: c.index
  }

  function Select(rows: seq<Checkpoint>, chosen: set<int>): seq<Checkpoint> {
    if rows == [] then []
    else (if rows[0].index in chosen then [rows[0]] else []) + Select(rows[1..], chosen)
  }

  // --- by position ---

  /** One run's rows, and the indexes it retains. */
  datatype Memory = Memory(rows: seq<Checkpoint>, retained: set<int>)

  /** `rows[-keep:]`, which is all of them at zero. */
  function Newest(rows: seq<Checkpoint>, keep: nat): seq<Checkpoint> {
    if keep == 0 || |rows| < keep then rows else rows[|rows| - keep..]
  }

  /** The newest `keep`, and the retained. */
  function Prune(rows: seq<Checkpoint>, retained: set<int>, keep: nat): seq<Checkpoint> {
    if |rows| > keep then Select(rows, Indexes(Newest(rows, keep)) + retained) else rows
  }

  function MemorySave(m: Memory, s: Save): Memory {
    var rows := m.rows + [s.checkpoint];
    var retained := if s.retain then m.retained + {s.checkpoint.index} else m.retained;
    Memory(Prune(rows, retained, s.keep), retained)
  }

  function MemoryRun(saves: seq<Save>): Memory {
    if saves == [] then Memory([], {}) else MemorySave(MemoryRun(saves[..|saves| - 1]), saves[|saves| - 1])
  }

  // --- by index ---

  datatype Stored = Stored(checkpoint: Checkpoint, retained: bool)

  /** `ORDER BY checkpoint_index DESC LIMIT keep`: those with fewer than `keep` above them. */
  function Window(indexes: set<int>, keep: nat): set<int> {
    set i | i in indexes && |set j | j in indexes && i < j| < keep
  }

  function TableSave(table: map<int, Stored>, s: Save): map<int, Stored>
    requires s.checkpoint.index !in table
  {
    var grown := table[s.checkpoint.index := Stored(s.checkpoint, s.retain)];
    map i | i in grown && (grown[i].retained || i in Window(grown.Keys, s.keep)) :: grown[i]
  }

  // --- what survives ---

  predicate Increasing(rows: seq<Checkpoint>) {
    forall i, j :: 0 <= i < j < |rows| ==> rows[i].index < rows[j].index
  }

  function Rows(saves: seq<Save>): (r: seq<Checkpoint>)
    ensures |r| == |saves| && forall i :: 0 <= i < |r| ==> r[i] == saves[i].checkpoint
  {
    seq(|saves|, i requires 0 <= i < |saves| => saves[i].checkpoint)
  }

  /** Saves come in index order. */
  predicate Proper(saves: seq<Save>) {
    Increasing(Rows(saves))
  }

  function Retained(saves: seq<Save>): set<int> {
    set i | 0 <= i < |saves| && saves[i].retain :: saves[i].checkpoint.index
  }

  /** A save's window, in saves made since: at zero it is every row. */
  predicate Reaches(s: Save, since: int) {
    s.keep == 0 || since < s.keep
  }

  /** Every save below this mark has fallen out of some save's window. */
  function LowWater(saves: seq<Save>): (w: nat)
    ensures w <= |saves|
  {
    if saves == [] then 0
    else
      var before, last := LowWater(saves[..|saves| - 1]), saves[|saves| - 1];
      if last.keep != 0 && before < |saves| - last.keep then |saves| - last.keep else before
  }

  /** The retained below the low-water mark, and everything from it on. */
  function Kept(saves: seq<Save>): seq<Checkpoint>
    requires Proper(saves)
  {
    Select(Rows(saves)[..LowWater(saves)], Retained(saves)) + Rows(saves)[LowWater(saves)..]
  }

  lemma {:induction false} SelectJoins(a: seq<Checkpoint>, b: seq<Checkpoint>, chosen: set<int>)
    ensures Select(a + b, chosen) == Select(a, chosen) + Select(b, chosen)
  {
    if a == [] {
      assert a + b == b;
    } else {
      var head := if a[0].index in chosen then [a[0]] else [];
      assert (a + b)[0] == a[0] && (a + b)[1..] == a[1..] + b;
      SelectJoins(a[1..], b, chosen);
      assert Select(a + b, chosen) == head + (Select(a[1..], chosen) + Select(b, chosen));
    }
  }

  lemma {:induction false} SelectAgrees(rows: seq<Checkpoint>, chosen: set<int>, other: set<int>)
    requires forall c :: c in rows ==> (c.index in chosen <==> c.index in other)
    ensures Select(rows, chosen) == Select(rows, other)
  {
    if rows == [] {
    } else {
      SelectAgrees(rows[1..], chosen, other);
    }
  }

  lemma {:induction false} SelectAll(rows: seq<Checkpoint>, chosen: set<int>)
    requires forall c :: c in rows ==> c.index in chosen
    ensures Select(rows, chosen) == rows
  {
    if rows == [] {
    } else {
      SelectAll(rows[1..], chosen);
    }
  }

  lemma {:induction false} Selected(rows: seq<Checkpoint>, chosen: set<int>)
    ensures forall c :: c in Select(rows, chosen) <==> c in rows && c.index in chosen
  {
    if rows == [] {
    } else {
      Selected(rows[1..], chosen);
    }
  }

  /** Pruning rows `a + b + c` to the last `|c|`, where `a` is retained already. */
  lemma {:induction false} PruneByPosition(a: seq<Checkpoint>, b: seq<Checkpoint>, c: seq<Checkpoint>,
                                           retained: set<int>)
    requires (forall r :: r in a ==> r.index in retained) && (forall r :: r in b ==> r.index !in Indexes(c))
    ensures Select(a + b + c, Indexes(c) + retained) == a + Select(b, retained) + c
  {
    var chosen := Indexes(c) + retained;
    SelectJoins(a + b, c, chosen);
    SelectJoins(a, b, chosen);
    SelectAll(a, chosen);
    SelectAll(c, chosen);
    SelectAgrees(b, chosen, retained);
  }

  lemma {:induction false} IncreasingIsDistinct(rows: seq<Checkpoint>, k: nat)
    requires Increasing(rows) && k <= |rows|
    ensures forall r :: r in rows[..k] ==> r.index !in Indexes(rows[k..])
  {
  }

  lemma {:induction false} ProperPrefix(saves: seq<Save>)
    requires Proper(saves) && saves != []
    ensures Proper(saves[..|saves| - 1])
    ensures Rows(saves) == Rows(saves[..|saves| - 1]) + [saves[|saves| - 1].checkpoint]
  {
    assert forall i :: 0 <= i < |saves| - 1 ==> Rows(saves)[i] == Rows(saves[..|saves| - 1])[i];
  }

  /** A new save retains itself at most: its index is new. */
  lemma {:induction false} RetainedJoins(saves: seq<Save>)
    requires Proper(saves) && saves != []
    ensures var n := |saves| - 1;
      && Retained(saves) == Retained(saves[..n]) + (if saves[n].retain then {saves[n].checkpoint.index} else {})
      && (forall r :: r in Rows(saves[..n]) ==> (r.index in Retained(saves) <==> r.index in Retained(saves[..n])))
  {
    var n := |saves| - 1;
    ProperPrefix(saves);
    assert forall i :: 0 <= i < n ==> Rows(saves)[i].index < Rows(saves)[n].index;
    forall x | x in Retained(saves)
      ensures x in Retained(saves[..n]) + (if saves[n].retain then {saves[n].checkpoint.index} else {})
    {
      var i :| 0 <= i < |saves| && saves[i].retain && saves[i].checkpoint.index == x;
      if i < n { assert saves[..n][i] == saves[i]; }
    }
  }

  /** The rows a run leaves: the retained below the low-water mark, and every save from it on. */
  lemma {:induction false} RunKeeps(saves: seq<Save>)
    requires Proper(saves)
    ensures MemoryRun(saves) == Memory(Kept(saves), Retained(saves))
  {
    if saves == [] {
    } else {
      ProperPrefix(saves);
      RunKeeps(saves[..|saves| - 1]);
      SaveKeepsKept(saves);
    }
  }

  lemma {:induction false} SaveKeepsKept(saves: seq<Save>)
    requires Proper(saves) && saves != [] && Proper(saves[..|saves| - 1])
    ensures var before := saves[..|saves| - 1];
      MemorySave(Memory(Kept(before), Retained(before)), saves[|saves| - 1]) == Memory(Kept(saves), Retained(saves))
  {
    var before, s := saves[..|saves| - 1], saves[|saves| - 1];
    RetainedJoins(saves);
    KeptGrows(saves);
    var m := Memory(Kept(before), Retained(before));
    assert (if s.retain then m.retained + {s.checkpoint.index} else m.retained) == Retained(saves);
    SaveKeeps(Rows(saves), LowWater(before), LowWater(saves), Retained(saves), s.keep);
    assert Prune(m.rows + [s.checkpoint], Retained(saves), s.keep) == Kept(saves);
  }

  lemma {:induction false} KeptGrows(saves: seq<Save>)
    requires Proper(saves) && saves != [] && Proper(saves[..|saves| - 1])
    ensures var before := saves[..|saves| - 1]; var w := LowWater(before);
      Kept(before) + [saves[|saves| - 1].checkpoint] == Select(Rows(saves)[..w], Retained(saves)) + Rows(saves)[w..]
  {
    var before := saves[..|saves| - 1];
    var w := LowWater(before);
    ProperPrefix(saves);
    RetainedJoins(saves);
    SelectAgrees(Rows(before)[..w], Retained(before), Retained(saves));
    assert Rows(before)[..w] == Rows(saves)[..w];
    assert Rows(before)[w..] + [saves[|saves| - 1].checkpoint] == Rows(saves)[w..];
  }

  /** One prune over a run's rows, above the low-water mark. */
  lemma {:induction false} SaveKeeps(rows: seq<Checkpoint>, w: nat, w': nat, retained: set<int>, keep: nat)
    requires Increasing(rows) && w <= |rows| && w' == (if keep != 0 && w < |rows| - keep then |rows| - keep else w)
    ensures Prune(Select(rows[..w], retained) + rows[w..], retained, keep) == Select(rows[..w'], retained) + rows[w'..]
  {
    var a := Select(rows[..w], retained);
    Selected(rows[..w], retained);
    if keep == 0 {
      SelectAll(a + rows[w..], Indexes(a + rows[w..]) + retained);
    } else if w < |rows| - keep {
      WindowMoves(rows, w, w', retained, keep);
    } else if |a + rows[w..]| > keep {
      AllInReach(a, rows[w..], retained, keep);
    }
  }

  lemma {:induction false} WindowMoves(rows: seq<Checkpoint>, w: nat, w': nat, retained: set<int>, keep: nat)
    requires Increasing(rows) && w < w' == |rows| - keep && 1 <= keep
    requires forall r :: r in Select(rows[..w], retained) ==> r.index in retained
    ensures Prune(Select(rows[..w], retained) + rows[w..], retained, keep) == Select(rows[..w'], retained) + rows[w'..]
  {
    SplitAt(rows, w, w');
    FallsBelow(rows, w, w');
    PruneJoined(rows[..w], rows[w..w'], rows[w'..], retained);
  }

  lemma {:induction false} PruneJoined(x: seq<Checkpoint>, b: seq<Checkpoint>, c: seq<Checkpoint>, retained: set<int>)
    requires (forall r :: r in Select(x, retained) ==> r.index in retained)
      && (forall r :: r in b ==> r.index !in Indexes(c)) && b != [] && c != []
    ensures Prune(Select(x, retained) + (b + c), retained, |c|) == Select(x + b, retained) + c
  {
    PruneToTail(Select(x, retained), b, c, retained);
    SelectJoins(x, b, retained);
  }

  lemma {:induction false} SplitAt(rows: seq<Checkpoint>, w: nat, w': nat)
    requires w <= w' <= |rows|
    ensures rows[w..] == rows[w..w'] + rows[w'..] && rows[..w] + rows[w..w'] == rows[..w']
  {
  }

  lemma {:induction false} PruneToTail(a: seq<Checkpoint>, b: seq<Checkpoint>, c: seq<Checkpoint>, retained: set<int>)
    requires (forall r :: r in a ==> r.index in retained) && (forall r :: r in b ==> r.index !in Indexes(c))
      && b != [] && c != []
    ensures Prune(a + (b + c), retained, |c|) == a + Select(b, retained) + c
  {
    assert a + (b + c) == a + b + c;
    assert Newest(a + b + c, |c|) == c;
    PruneByPosition(a, b, c, retained);
  }

  lemma {:induction false} FallsBelow(rows: seq<Checkpoint>, w: nat, w': nat)
    requires Increasing(rows) && w <= w' <= |rows|
    ensures forall r :: r in rows[w..w'] ==> r.index !in Indexes(rows[w'..])
  {
    IncreasingIsDistinct(rows, w');
    assert forall r :: r in rows[w..w'] ==> r in rows[..w'];
  }

  /** A window that reaches into the retained rows prunes nothing. */
  lemma {:induction false} AllInReach(a: seq<Checkpoint>, c: seq<Checkpoint>, retained: set<int>, keep: nat)
    requires (forall r :: r in a ==> r.index in retained) && 1 <= keep && |c| <= keep < |a + c|
    ensures Select(a + c, Indexes(Newest(a + c, keep)) + retained) == a + c
  {
    assert Newest(a + c, keep) == a[|a| + |c| - keep..] + c;
    SelectAll(a + c, Indexes(Newest(a + c, keep)) + retained);
  }

  /** Alive after all the saves: retained, or within every later save's window. */
  ghost predicate Alive(saves: seq<Save>, j: nat)
    requires j < |saves|
  {
    saves[j].retain || forall i :: j <= i < |saves| ==> Reaches(saves[i], i - j)
  }

  lemma {:induction false} LowWaterIsReach(saves: seq<Save>, j: nat)
    requires j < |saves|
    ensures LowWater(saves) <= j <==> forall i :: j <= i < |saves| ==> Reaches(saves[i], i - j)
  {
    var n := |saves| - 1;
    var before := saves[..n];
    assert forall i :: 0 <= i < n ==> before[i] == saves[i];
    if j < n {
      LowWaterIsReach(before, j);
      assert (forall i :: j <= i < n ==> Reaches(before[i], i - j)) <==>
        (forall i :: j <= i < n ==> Reaches(saves[i], i - j));
    }
    assert LowWater(saves) <= j <==> (j < n ==> LowWater(before) <= j) && Reaches(saves[n], n - j);
  }

  /** A save survives a run exactly when it is retained or each save from its own on keeps more than
      the saves made since, or keeps all. */
  lemma {:induction false} SurvivesExactlyWhenAlive(saves: seq<Save>, j: nat)
    requires Proper(saves) && j < |saves|
    ensures saves[j].checkpoint in MemoryRun(saves).rows <==> Alive(saves, j)
  {
    RunKeeps(saves);
    LowWaterIsReach(saves, j);
    var w, rows := LowWater(saves), Rows(saves);
    var c := saves[j].checkpoint;
    Selected(rows[..w], Retained(saves));
    assert rows[j] == c;
    if j < w {
      assert rows[..w][j] == c;
      assert c !in rows[w..];
      RetainedIsOwn(saves, j);
    } else {
      assert rows[w..][j - w] == c;
    }
  }

  lemma {:induction false} RetainedIsOwn(saves: seq<Save>, j: nat)
    requires Proper(saves) && j < |saves|
    ensures saves[j].checkpoint.index in Retained(saves) <==> saves[j].retain
  {
    if i :| 0 <= i < |saves| && saves[i].retain && saves[i].checkpoint.index == saves[j].checkpoint.index {
      assert Rows(saves)[i].index == Rows(saves)[j].index;
    }
  }

  // --- the two prunings agree ---

  /** The in-memory rows and the table hold the same checkpoints, in index order. */
  ghost predicate Twin(m: Memory, table: map<int, Stored>) {
    && Increasing(m.rows)
    && table.Keys == Indexes(m.rows)
    && forall c :: c in m.rows ==> table[c.index] == Stored(c, c.index in m.retained)
  }

  lemma {:induction false} IndexesJoin(rows: seq<Checkpoint>, row: Checkpoint)
    ensures Indexes(rows + [row]) == Indexes(rows) + {row.index}
  {
  }

  lemma {:induction false} IndexesCount(rows: seq<Checkpoint>)
    requires Increasing(rows)
    ensures |Indexes(rows)| == |rows|
  {
    if rows == [] {
    } else {
      var n := |rows| - 1;
      IndexesCount(rows[..n]);
      IndexesJoin(rows[..n], rows[n]);
      assert rows == rows[..n] + [rows[n]];
      assert forall i :: 0 <= i < n ==> rows[..n][i].index < rows[n].index;
    }
  }

  /** In index order, position counts the indexes above. */
  lemma {:induction false} AboveIsAfter(rows: seq<Checkpoint>, p: nat)
    requires Increasing(rows) && p < |rows|
    ensures |set j | j in Indexes(rows) && rows[p].index < j| == |rows| - 1 - p
  {
    IndexesCount(rows[p + 1..]);
    assert (set j | j in Indexes(rows) && rows[p].index < j) == Indexes(rows[p + 1..]);
  }

  /** A window by index is a suffix by position. */
  lemma {:induction false} InWindow(rows: seq<Checkpoint>, keep: nat, p: nat)
    requires Increasing(rows) && 1 <= keep && p < |rows|
    ensures rows[p].index in Window(Indexes(rows), keep) <==> |rows| - keep <= p
  {
    AboveIsAfter(rows, p);
    assert rows[p].index in Indexes(rows);
  }

  lemma {:induction false} InNewest(rows: seq<Checkpoint>, keep: nat, p: nat)
    requires Increasing(rows) && 1 <= keep && p < |rows|
    ensures rows[p].index in Indexes(Newest(rows, keep)) <==> |rows| - keep <= p
  {
    var newest := Newest(rows, keep);
    var first := |rows| - |newest|;
    assert newest == rows[first..];
    IncreasingIsDistinct(rows, first);
    if first <= p {
      assert newest[p - first] == rows[p];
    } else {
      assert rows[..first][p] == rows[p];
    }
  }

  lemma {:induction false} WindowsAgree(rows: seq<Checkpoint>, keep: nat)
    requires Increasing(rows) && 1 <= keep
    ensures Window(Indexes(rows), keep) == Indexes(Newest(rows, keep))
  {
    forall i | i in Indexes(rows)
      ensures i in Window(Indexes(rows), keep) <==> i in Indexes(Newest(rows, keep))
    {
      var p :| 0 <= p < |rows| && rows[p].index == i;
      InWindow(rows, keep, p);
      InNewest(rows, keep, p);
    }
  }

  lemma {:induction false} SelectKeepsTwin(m: Memory, table: map<int, Stored>, chosen: set<int>)
    requires Twin(m, table)
    ensures Twin(Memory(Select(m.rows, chosen), m.retained), map i | i in table && i in chosen :: table[i])
  {
    Selected(m.rows, chosen);
    SelectIncreasing(m.rows, chosen);
  }

  lemma {:induction false} SelectIncreasing(rows: seq<Checkpoint>, chosen: set<int>)
    requires Increasing(rows)
    ensures Increasing(Select(rows, chosen))
  {
    if rows == [] {
    } else {
      SelectIncreasing(rows[1..], chosen);
      Selected(rows[1..], chosen);
      assert forall c :: c in rows[1..] ==> rows[0].index < c.index;
    }
  }

  /** By position and by index, pruning chooses the same when at least one is kept. */
  lemma {:induction false} PrunesAgree(rows: seq<Checkpoint>, retained: set<int>, keep: nat)
    requires Increasing(rows) && 1 <= keep
    ensures Prune(rows, retained, keep) == Select(rows, Window(Indexes(rows), keep) + retained)
  {
    WindowsAgree(rows, keep);
    if |rows| <= keep {
      assert Newest(rows, keep) == rows;
      SelectAll(rows, Window(Indexes(rows), keep) + retained);
    }
  }

  lemma {:induction false} InsertKeepsTwin(m: Memory, table: map<int, Stored>, s: Save)
    requires Twin(m, table) && forall c :: c in m.rows ==> c.index < s.checkpoint.index
    requires m.retained <= Indexes(m.rows)
    ensures Twin(Memory(m.rows + [s.checkpoint], if s.retain then m.retained + {s.checkpoint.index} else m.retained),
                 table[s.checkpoint.index := Stored(s.checkpoint, s.retain)])
  {
    assert Indexes(m.rows + [s.checkpoint]) == Indexes(m.rows) + {s.checkpoint.index};
  }

  /** Twins stay twins over a save exactly when it keeps at least one, or has nothing to prune: at
      zero the in-memory registry keeps every row and the table only the retained. */
  lemma {:induction false} SavesAgree(m: Memory, table: map<int, Stored>, s: Save)
    requires Twin(m, table) && m.retained <= Indexes(m.rows) && forall c :: c in m.rows ==> c.index < s.checkpoint.index
    ensures s.checkpoint.index !in table
    ensures Twin(MemorySave(m, s), TableSave(table, s))
       <==> PrunesAlike(m, s)
  {
    InsertKeepsTwin(m, table, s);
    var rows, retained := m.rows + [s.checkpoint], if s.retain then m.retained + {s.checkpoint.index} else m.retained;
    var grown := table[s.checkpoint.index := Stored(s.checkpoint, s.retain)];
    var chosen := Window(grown.Keys, s.keep) + retained;
    TablePrunes(Memory(rows, retained), grown, s.keep);
    SelectKeepsTwin(Memory(rows, retained), grown, chosen);
    if 1 <= s.keep {
      PrunesAgree(rows, retained, s.keep);
    } else {
      ZeroAgrees(m, table, s);
    }
  }

  lemma {:induction false} TablePrunes(m: Memory, table: map<int, Stored>, keep: nat)
    requires Twin(m, table)
    ensures (map i | i in table && (table[i].retained || i in Window(table.Keys, keep)) :: table[i])
         == (map i | i in table && i in Window(table.Keys, keep) + m.retained :: table[i])
  {
  }

  lemma {:induction false} RetainedOnly(m: Memory, table: map<int, Stored>)
    requires Twin(m, table)
    ensures Twin(m, map i | i in table && table[i].retained :: table[i]) <==>
      forall c :: c in m.rows ==> c.index in m.retained
  {
    var pruned := map i | i in table && table[i].retained :: table[i];
    if Twin(m, pruned) {
      forall c | c in m.rows
        ensures c.index in m.retained
      {
        assert c.index in pruned.Keys;
      }
    }
    if forall c :: c in m.rows ==> c.index in m.retained {
      assert pruned == table;
    }
  }

  /** At zero, nothing is pruned in memory and everything unretained is in the table. */
  lemma {:induction false} ZeroPrunes(m: Memory, table: map<int, Stored>, s: Save)
    requires s.keep == 0 && s.checkpoint.index !in table
    ensures MemorySave(m, s) ==
      Memory(m.rows + [s.checkpoint], if s.retain then m.retained + {s.checkpoint.index} else m.retained)
    ensures var grown := table[s.checkpoint.index := Stored(s.checkpoint, s.retain)];
      TableSave(table, s) == map i | i in grown && grown[i].retained :: grown[i]
  {
    var rows := m.rows + [s.checkpoint];
    SelectAll(rows, Indexes(rows) + if s.retain then m.retained + {s.checkpoint.index} else m.retained);
    var grown := table[s.checkpoint.index := Stored(s.checkpoint, s.retain)];
    assert Window(grown.Keys, 0) == {};
  }

  lemma {:induction false} ZeroAgrees(m: Memory, table: map<int, Stored>, s: Save)
    requires Twin(m, table) && m.retained <= Indexes(m.rows)
      && (forall c :: c in m.rows ==> c.index < s.checkpoint.index) && s.keep == 0
    ensures s.checkpoint.index !in table
    ensures Twin(MemorySave(m, s), TableSave(table, s)) <==>
      s.retain && forall c :: c in m.rows ==> c.index in m.retained
  {
    InsertKeepsTwin(m, table, s);
    ZeroPrunes(m, table, s);
    var rows, retained := m.rows + [s.checkpoint], if s.retain then m.retained + {s.checkpoint.index} else m.retained;
    RetainedOnly(Memory(rows, retained), table[s.checkpoint.index := Stored(s.checkpoint, s.retain)]);
    assert s.checkpoint in rows && forall c :: c in m.rows ==> c in rows;
  }

  function TableRun(saves: seq<Save>): map<int, Stored>
    requires Proper(saves)
    ensures TableRun(saves).Keys <= Indexes(Rows(saves))
  {
    if saves == [] then map[]
    else
      var before, s := saves[..|saves| - 1], saves[|saves| - 1];
      ProperPrefix(saves);
      IncreasingIsDistinct(Rows(saves), |saves| - 1);
      TableSave(TableRun(before), s)
  }

  lemma {:induction false} KeptWithin(saves: seq<Save>)
    requires Proper(saves)
    ensures forall c :: c in Kept(saves) ==> c in Rows(saves)
    ensures Retained(saves) <= Indexes(Kept(saves))
  {
    var w, rows := LowWater(saves), Rows(saves);
    Selected(rows[..w], Retained(saves));
    forall x | x in Retained(saves)
      ensures x in Indexes(Kept(saves))
    {
      var i :| 0 <= i < |saves| && saves[i].retain && saves[i].checkpoint.index == x;
      assert rows[i] == saves[i].checkpoint;
      if i < w { assert rows[..w][i] == rows[i]; } else { assert rows[w..][i - w] == rows[i]; }
      assert rows[i] in Kept(saves);
    }
  }

  /** A save prunes alike by position and by index: it keeps at least one, or every row is retained. */
  ghost predicate PrunesAlike(m: Memory, s: Save) {
    1 <= s.keep || (s.retain && forall c :: c in m.rows ==> c.index in m.retained)
  }

  ghost predicate TwinsThroughout(saves: seq<Save>)
    requires Proper(saves)
  {
    && Twin(MemoryRun(saves), TableRun(saves))
    && (saves != [] ==>
          (ProperPrefix(saves); TwinsThroughout(saves[..|saves| - 1])))
  }

  ghost predicate PrunesAlikeThroughout(saves: seq<Save>) {
    saves != [] ==>
      PrunesAlike(MemoryRun(saves[..|saves| - 1]), saves[|saves| - 1]) && PrunesAlikeThroughout(saves[..|saves| - 1])
  }

  lemma {:induction false} NextIndexIsNew(saves: seq<Save>)
    requires Proper(saves) && saves != [] && Proper(saves[..|saves| - 1])
    ensures var m := MemoryRun(saves[..|saves| - 1]);
      m.retained <= Indexes(m.rows) && forall c :: c in m.rows ==> c.index < saves[|saves| - 1].checkpoint.index
  {
    var n := |saves| - 1;
    RunKeeps(saves[..n]);
    KeptWithin(saves[..n]);
    forall c | c in Rows(saves[..n])
      ensures c.index < saves[n].checkpoint.index
    {
      var i :| 0 <= i < n && Rows(saves[..n])[i] == c;
      assert Rows(saves)[i].index < Rows(saves)[n].index;
    }
  }

  lemma {:induction false} LastSaveAgrees(saves: seq<Save>)
    requires Proper(saves) && saves != [] && Proper(saves[..|saves| - 1])
    requires Twin(MemoryRun(saves[..|saves| - 1]), TableRun(saves[..|saves| - 1]))
    ensures Twin(MemoryRun(saves), TableRun(saves)) <==>
      PrunesAlike(MemoryRun(saves[..|saves| - 1]), saves[|saves| - 1])
  {
    NextIndexIsNew(saves);
    SavesAgree(MemoryRun(saves[..|saves| - 1]), TableRun(saves[..|saves| - 1]), saves[|saves| - 1]);
  }

  /** Over a run of saves in index order, the two registries hold the same checkpoints after every one
      if and only if each kept at least one or found everything retained. */
  lemma {:induction false} RunsAgree(saves: seq<Save>)
    requires Proper(saves)
    ensures TwinsThroughout(saves) <==> PrunesAlikeThroughout(saves)
  {
    if saves == [] {
    } else {
      var before := saves[..|saves| - 1];
      ProperPrefix(saves);
      RunsAgree(before);
      if TwinsThroughout(before) {
        assert Twin(MemoryRun(before), TableRun(before));
        LastSaveAgrees(saves);
      }
    }
  }

  /** Saving one checkpoint with a keep of zero: in memory it is there, and in the table it is not. */
  lemma {:induction false} KeepZeroExample()
    ensures var s := Save(Checkpoint(1, "first"), 0, false);
      MemorySave(Memory([], {}), s).rows == [s.checkpoint] && TableSave(map[], s) == map[]
  {
    ZeroPrunes(Memory([], {}), map[], Save(Checkpoint(1, "first"), 0, false));
  }
}
