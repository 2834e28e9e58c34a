/** Resource pools of resource.c: the map from an operation class to the functional-unit templates that serve it. */
module Resource {
  import opened OooState

  const MAX_RES_CLASSES: nat := 16
  const MAX_INSTS_PER_CLASS: nat := 8

  /** One entry of a unit's array x: an operation class it executes, and its two latencies. */
  datatype Service = Service(cls: nat, oplat: nat, issuelat: nat)

  /** res_desc; class 0 ends the array x. */
  datatype Desc = Desc(quantity: nat, x: seq<Service>)

  /** How many entries of x come before the first class 0. */
  function Used(x: seq<Service>): (n: nat)
    ensures n <= |x|
    ensures n < |x| ==> x[n].cls == 0
    ensures forall j :: 0 <= j < n ==> x[j].cls != 0
  {
    if x == [] || x[0].cls == 0 then 0 else 1 + Used(x[1..])
  }

  function Copies(x: seq<Service>, n: nat): (r: seq<seq<Service>>)
    ensures |r| == n
    ensures forall i {:trigger r[i]} :: 0 <= i < n ==> r[i] == x
  {
    if n == 0 then [] else Copies(x, n - 1) + [x]
  }

  /** The instance table: `quantity` instances of each unit, in order. */
  function Instances(pool: seq<Desc>): seq<seq<Service>> {
    if pool == [] then []
    else
      var d := pool[|pool| - 1];
      Instances(pool[..|pool| - 1]) + Copies(d.x, d.quantity)
  }

  /** The templates of class c among the first k entries of instance i. */
  function Offers(x: seq<Service>, k: nat, i: nat, c: nat): seq<Template>
    requires k <= |x|
  {
    if k == 0 then []
    else Offers(x, k - 1, i, c) + if x[k - 1].cls == c then [Template(i, x[k - 1].oplat, x[k - 1].issuelat)] else []
  }

  /** table[c]: what the instances offer for class c, in order. */
  function Row(insts: seq<seq<Service>>, c: nat): seq<Template> {
    if insts == [] then []
    else
      var i := |insts| - 1;
      Row(insts[..i], c) + Offers(insts[i], Used(insts[i]), i, c)
  }

  /** Instance x can execute class c. */
  predicate Provides(x: seq<Service>, c: nat) { exists j :: 0 <= j < Used(x) && x[j].cls == c }

  // ---- what the map holds ----

  lemma {:induction false} OffersIs(x: seq<Service>, k: nat, i: nat, c: nat)
    requires k <= |x|
    ensures forall t :: t in Offers(x, k, i, c) <==>
              t.master == i && exists j :: 0 <= j < k && x[j] == Service(c, t.oplat, t.issuelat)
  {
    if k > 0 {
      OffersIs(x, k - 1, i, c);
      forall t ensures t in Offers(x, k, i, c) <==>
                       t.master == i && exists j :: 0 <= j < k && x[j] == Service(c, t.oplat, t.issuelat)
      {
        if t.master == i && x[k - 1] == Service(c, t.oplat, t.issuelat) {
          assert t == Template(i, x[k - 1].oplat, x[k - 1].issuelat);
        }
      }
    }
  }

  /** The row of a class holds exactly the templates some instance offers for it, each with its own master. */
  lemma {:induction false} RowIs(insts: seq<seq<Service>>, c: nat, t: Template)
    ensures t in Row(insts, c) <==>
            && t.master < |insts|
            && exists j :: 0 <= j < Used(insts[t.master]) && insts[t.master][j] == Service(c, t.oplat, t.issuelat)
  {
    if insts != [] {
      var i := |insts| - 1;
      RowIs(insts[..i], c, t);
      OffersIs(insts[i], Used(insts[i]), i, c);
      if t.master < i {
        assert insts[..i][t.master] == insts[t.master];
      }
    }
  }

  /** Rows list units by instance number. */
  lemma {:induction false} RowSorted(insts: seq<seq<Service>>, c: nat)
    ensures forall a, b :: 0 <= a < b < |Row(insts, c)| ==> Row(insts, c)[a].master <= Row(insts, c)[b].master
  {
    if insts != [] {
      var i := |insts| - 1;
      var low, high := Row(insts[..i], c), Offers(insts[i], Used(insts[i]), i, c);
      RowSorted(insts[..i], c);
      forall a | 0 <= a < |low| ensures low[a].master < i {
        RowIs(insts[..i], c, low[a]);
      }
      OffersIs(insts[i], Used(insts[i]), i, c);
      assert forall b :: 0 <= b < |high| ==> high[b] in high;
      assert Row(insts, c) == low + high;
    }
  }

  /** res_get over such a map grants a unit exactly when an idle instance can execute the class, and then it is
      the lowest-numbered one. */
  lemma GrantsLowestIdle(insts: seq<seq<Service>>, c: nat, busy: seq<nat>)
    requires |busy| == |insts| && c != 0
    ensures forall k :: 0 <= k < |Row(insts, c)| ==> Row(insts, c)[k].master < |busy|
    ensures var r := FirstIdle(Row(insts, c), busy);
            && (r >= 0 <==> exists i :: 0 <= i < |insts| && busy[i] == 0 && Provides(insts[i], c))
            && (r >= 0 ==> forall i :: 0 <= i < Row(insts, c)[r].master && Provides(insts[i], c) ==> busy[i] > 0)
  {
    var row := Row(insts, c);
    forall k | 0 <= k < |row| ensures row[k].master < |busy| && Provides(insts[row[k].master], c) {
      RowIs(insts, c, row[k]);
    }
    var r := FirstIdle(row, busy);
    forall i | 0 <= i < |insts| && Provides(insts[i], c)
      ensures exists k :: 0 <= k < |row| && row[k].master == i
    {
      var j :| 0 <= j < Used(insts[i]) && insts[i][j].cls == c;
      var t := Template(i, insts[i][j].oplat, insts[i][j].issuelat);
      assert insts[i][j] == Service(c, t.oplat, t.issuelat);
      RowIs(insts, c, t);
      assert t in row;
    }
    if r >= 0 {
      RowSorted(insts, c);
      forall i | 0 <= i < row[r].master && Provides(insts[i], c) ensures busy[i] > 0 {
        var k :| 0 <= k < |row| && row[k].master == i;
        assert k < r;
      }
    }
  }

  /** The core's hypothesis about its units, from the pool: every template names an existing unit. */
  lemma PoolSuitsCore(cfg: Config, pool: seq<Desc>)
    requires 0 < cfg.ruuSize && 0 < cfg.lsqSize && cfg.units == |Instances(pool)|
    requires |cfg.table| == MAX_RES_CLASSES && forall c :: 0 <= c < MAX_RES_CLASSES ==> cfg.table[c] == Row(Instances(pool), c)
    requires forall d, j :: d in pool && 0 <= j < |d.x| ==> 1 <= d.x[j].oplat
    ensures CfgOk(cfg)
  {
    var insts := Instances(pool);
    InstancesFrom(pool);
    forall c, k | 0 <= c < |cfg.table| && 0 <= k < |cfg.table[c]|
      ensures cfg.table[c][k].master < cfg.units && 1 <= cfg.table[c][k].oplat
    {
      RowIs(insts, c, cfg.table[c][k]);
      var x := insts[cfg.table[c][k].master];
      assert x in insts;
    }
  }

  lemma {:induction false} InstancesFrom(pool: seq<Desc>)
    ensures forall x :: x in Instances(pool) ==> exists d :: d in pool && d.x == x
  {
    if pool != [] {
      InstancesFrom(pool[..|pool| - 1]);
      var d := pool[|pool| - 1];
      assert forall e :: e in pool[..|pool| - 1] ==> e in pool;
      assert d in pool;
    }
  }

  // ---- building it ----

  /** How res_create_pool ends: normally, in fatal, in the assertion about classes, or writing past a row. */
  datatype Built = Made | TooMany | BadClass | RowOverrun

  /** Every class used is a legal one and no row outgrows its array. */
  predicate RowsFit(insts: seq<seq<Service>>) {
    && (forall i, j :: 0 <= i < |insts| && 0 <= j < Used(insts[i]) ==> insts[i][j].cls < MAX_RES_CLASSES)
    && forall c: nat :: c < MAX_RES_CLASSES ==> |Row(insts, c)| <= MAX_INSTS_PER_CLASS
  }

  /** The table after instances before i, and the first k entries of instance i. */
  ghost predicate Mapped(insts: seq<seq<Service>>, i: nat, k: nat, table: seq<seq<Template>>)
    requires i <= |insts| && (i == |insts| ==> k == 0) && (i < |insts| ==> k <= |insts[i]|)
  {
    && |table| == MAX_RES_CLASSES
    && forall c {:trigger table[c]} :: 0 <= c < MAX_RES_CLASSES ==>
         table[c] == Row(insts[..i], c) + if i < |insts| then Offers(insts[i], k, i, c) else []
  }

  lemma MappedNext(insts: seq<seq<Service>>, i: nat, table: seq<seq<Template>>)
    requires i < |insts| && Mapped(insts, i, Used(insts[i]), table)
    ensures Mapped(insts, i + 1, 0, table)
  {
    assert insts[..i + 1][..i] == insts[..i];
  }

  /** Rows only grow. */
  lemma {:induction false} RowGrows(insts: seq<seq<Service>>, i: nat, k: nat, c: nat)
    requires i < |insts| && k <= Used(insts[i])
    ensures |Row(insts[..i], c) + Offers(insts[i], k, i, c)| <= |Row(insts, c)|
    decreases |insts| - i, Used(insts[i]) - k
  {
    if k < Used(insts[i]) {
      RowGrows(insts, i, k + 1, c);
    } else {
      assert insts[..i + 1][..i] == insts[..i];
      if i + 1 < |insts| {
        RowGrows(insts, i + 1, 0, c);
      } else {
        assert insts[..i + 1] == insts;
      }
    }
  }

  /** res_create_pool: it succeeds exactly when no unit is too numerous and the classes fit the map. */
  method ResCreatePool(pool: seq<Desc>) returns (built: Built, insts: seq<seq<Service>>, table: seq<seq<Template>>)
    ensures built == TooMany <==> exists i :: 0 <= i < |pool| && pool[i].quantity > MAX_INSTS_PER_CLASS
    ensures built != TooMany ==> (built == Made <==> RowsFit(Instances(pool)))
    ensures built == Made ==> insts == Instances(pool) && Mapped(insts, |insts|, 0, table)
  {
    insts, table := [], [];
    for i := 0 to |pool|
      invariant forall j :: 0 <= j < i ==> pool[j].quantity <= MAX_INSTS_PER_CLASS
    {
      if pool[i].quantity > MAX_INSTS_PER_CLASS { return TooMany, insts, table; }
    }
    insts := FillInstances(pool);
    table := seq(MAX_RES_CLASSES, _ => []);
    for i := 0 to |insts|
      invariant Mapped(insts, i, 0, table)
      invariant forall a, j :: 0 <= a < i && 0 <= j < Used(insts[a]) ==> insts[a][j].cls < MAX_RES_CLASSES
      invariant forall c {:trigger table[c]} :: 0 <= c < MAX_RES_CLASSES ==> |table[c]| <= MAX_INSTS_PER_CLASS
    {
      built, table := MapInstance(insts, i, table);
      if built != Made { return; }
      MappedNext(insts, i, table);
    }
    assert insts[..|insts|] == insts;
    forall c: nat | c < MAX_RES_CLASSES ensures |Row(insts, c)| <= MAX_INSTS_PER_CLASS {
      assert table[c] == Row(insts, c);
    }
    return Made, insts, table;
  }

  /** The loops that fill the instance table. */
  method FillInstances(pool: seq<Desc>) returns (insts: seq<seq<Service>>)
    ensures insts == Instances(pool)
  {
    insts := [];
    for i := 0 to |pool|
      invariant insts == Instances(pool[..i])
    {
      ghost var was := insts;
      for j := 0 to pool[i].quantity
        invariant insts == was + Copies(pool[i].x, j)
      {
        insts := insts + [pool[i].x];
      }
      assert pool[..i + 1][..i] == pool[..i];
    }
    assert pool[..|pool|] == pool;
  }

  /** One more entry of an instance: its row gets it, and is then no longer than the finished row. */
  lemma MappedRow(insts: seq<seq<Service>>, i: nat, j: nat, table: seq<seq<Template>>)
    requires i < |insts| && j < Used(insts[i]) && Mapped(insts, i, j, table) && insts[i][j].cls < MAX_RES_CLASSES
    ensures var e := insts[i][j];
            && |table| == MAX_RES_CLASSES && |table[e.cls]| < |Row(insts, e.cls)|
            && Mapped(insts, i, j + 1, table[e.cls := table[e.cls] + [Template(i, e.oplat, e.issuelat)]])
  {
    hide Row;
    RowGrows(insts, i, j + 1, insts[i][j].cls);
  }

  lemma MappedSize(insts: seq<seq<Service>>, i: nat, k: nat, table: seq<seq<Template>>)
    requires i < |insts| && k <= |insts[i]| && Mapped(insts, i, k, table)
    ensures |table| == MAX_RES_CLASSES
  {
  }

  /** The inner loop over the classes of one instance. */
  method MapInstance(insts: seq<seq<Service>>, i: nat, table0: seq<seq<Template>>) returns (built: Built, table: seq<seq<Template>>)
    requires i < |insts| && Mapped(insts, i, 0, table0)
    requires forall c {:trigger table0[c]} :: 0 <= c < MAX_RES_CLASSES ==> |table0[c]| <= MAX_INSTS_PER_CLASS
    ensures built == Made || built == BadClass || built == RowOverrun
    ensures built != Made ==> !RowsFit(insts)
    ensures built == Made ==>
              && Mapped(insts, i, Used(insts[i]), table)
              && (forall j :: 0 <= j < Used(insts[i]) ==> insts[i][j].cls < MAX_RES_CLASSES)
              && forall c {:trigger table[c]} :: 0 <= c < MAX_RES_CLASSES ==> |table[c]| <= MAX_INSTS_PER_CLASS
  {
    hide Mapped, Row, Offers;
    table := table0;
    MappedSize(insts, i, 0, table);
    var x, j := insts[i], 0;
    while j < |x| && x[j].cls != 0
      invariant j <= Used(x) && Mapped(insts, i, j, table) && |table| == MAX_RES_CLASSES
      invariant forall k :: 0 <= k < j ==> x[k].cls < MAX_RES_CLASSES
      invariant forall c {:trigger table[c]} :: 0 <= c < MAX_RES_CLASSES ==> |table[c]| <= MAX_INSTS_PER_CLASS
    {
      var c := x[j].cls;
      if c >= MAX_RES_CLASSES { return BadClass, table; }
      MappedRow(insts, i, j, table);
      if |table[c]| >= MAX_INSTS_PER_CLASS { return RowOverrun, table; }
      table := table[c := table[c] + [Template(i, x[j].oplat, x[j].issuelat)]];
      j := j + 1;
    }
    return Made, table;
  }
}
