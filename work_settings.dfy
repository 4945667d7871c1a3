/**
 * The per-agent job-priority table: every role maps to a priority in
 * 0..4, where 0 disables the job. The active jobs are listed from the
 * highest priority down.
 */
module WorkSettings {

  import opened Common

  const MAX_PRIORITY: int := 4

  /** Every role, in declaration order. */
  const AllRoles: seq<ColonistRole> :=
    [ColonistRole.Idle, Farmer, ColonistRole.Miner, Hauler, Builder, Researcher, Medic, Soldier]

  lemma AllRolesListsEachRoleOnce(r: ColonistRole)
    ensures multiset(AllRoles)[r] == 1
  {
  }

  /** A table lookup that treats a missing role as priority 0. */
  function PriorityIn(table: map<ColonistRole, int>, r: ColonistRole): int
  {
    if r in table then table[r] else 0
  }

  /** The roles of rs with a positive priority, in their order in rs. */
  function ActiveIn(table: map<ColonistRole, int>, rs: seq<ColonistRole>): seq<ColonistRole>
  {
    if rs == [] then []
    else if PriorityIn(table, rs[0]) > 0 then [rs[0]] + ActiveIn(table, rs[1..])
    else ActiveIn(table, rs[1..])
  }

  /** Puts r before the first element of s whose priority is not above r's. */
  function InsertByPriority(table: map<ColonistRole, int>, r: ColonistRole, s: seq<ColonistRole>): seq<ColonistRole>
  {
    if s == [] || PriorityIn(table, s[0]) <= PriorityIn(table, r) then [r] + s
    else [s[0]] + InsertByPriority(table, r, s[1..])
  }

  /** A stable sort by non-increasing priority. */
  function SortByPriority(table: map<ColonistRole, int>, s: seq<ColonistRole>): seq<ColonistRole>
  {
    if s == [] then [] else InsertByPriority(table, s[0], SortByPriority(table, s[1..]))
  }

  ghost predicate NonIncreasing(table: map<ColonistRole, int>, s: seq<ColonistRole>)
  {
    forall i, j :: 0 <= i < j < |s| ==> PriorityIn(table, s[i]) >= PriorityIn(table, s[j])
  }

  /**
   * The active jobs, highest priority first. The source sorts hash-map
   * entries, so roles of equal priority come in an unspecified order;
   * this model lists them in declaration order.
   */
  function ActiveJobsSorted(table: map<ColonistRole, int>): seq<ColonistRole>
  {
    SortByPriority(table, ActiveIn(table, AllRoles))
  }

  lemma {:induction false} ActiveInCounts(table: map<ColonistRole, int>, rs: seq<ColonistRole>, r: ColonistRole)
    ensures multiset(ActiveIn(table, rs))[r] == if PriorityIn(table, r) > 0 then multiset(rs)[r] else 0
  {
    if rs != [] {
      ActiveInCounts(table, rs[1..], r);
      assert rs == [rs[0]] + rs[1..];
    }
  }

  lemma {:induction false} InsertByPriorityElements(table: map<ColonistRole, int>, r: ColonistRole, s: seq<ColonistRole>)
    ensures multiset(InsertByPriority(table, r, s)) == multiset(s) + multiset{r}
    ensures forall x :: x in InsertByPriority(table, r, s) <==> x == r || x in s
  {
    if s == [] || PriorityIn(table, s[0]) <= PriorityIn(table, r) {
    } else {
      InsertByPriorityElements(table, r, s[1..]);
      assert s == [s[0]] + s[1..];
    }
  }

  /** A head that outranks r and the rest of a sorted s outranks everything r's insertion into the rest yields. */
  lemma HeadOutranks(table: map<ColonistRole, int>, r: ColonistRole, s: seq<ColonistRole>, t: seq<ColonistRole>)
    requires NonIncreasing(table, s) && s != [] && PriorityIn(table, s[0]) > PriorityIn(table, r)
    requires forall x :: x in t <==> x == r || x in s[1..]
    ensures forall k :: 0 <= k < |t| ==> PriorityIn(table, s[0]) >= PriorityIn(table, t[k])
  {
    forall k | 0 <= k < |t|
      ensures PriorityIn(table, s[0]) >= PriorityIn(table, t[k])
    {
      assert t[k] in t;
      if t[k] != r {
        var j :| 0 <= j < |s[1..]| && s[1..][j] == t[k];
        assert s[j + 1] == t[k];
      }
    }
  }

  lemma {:induction false} InsertByPriorityKeepsOrder(table: map<ColonistRole, int>, r: ColonistRole, s: seq<ColonistRole>)
    requires NonIncreasing(table, s)
    ensures multiset(InsertByPriority(table, r, s)) == multiset(s) + multiset{r}
    ensures NonIncreasing(table, InsertByPriority(table, r, s))
  {
    InsertByPriorityElements(table, r, s);
    if s == [] || PriorityIn(table, s[0]) <= PriorityIn(table, r) {
    } else {
      InsertByPriorityKeepsOrder(table, r, s[1..]);
      var t := InsertByPriority(table, r, s[1..]);
      InsertByPriorityElements(table, r, s[1..]);
      HeadOutranks(table, r, s, t);
      ConsSorted(table, s[0], t);
    }
  }

  /** A sorted sequence stays sorted under a head that outranks all of it. */
  lemma ConsSorted(table: map<ColonistRole, int>, h: ColonistRole, t: seq<ColonistRole>)
    requires NonIncreasing(table, t)
    requires forall k :: 0 <= k < |t| ==> PriorityIn(table, h) >= PriorityIn(table, t[k])
    ensures NonIncreasing(table, [h] + t)
  {
    var res := [h] + t;
    forall i, j | 0 <= i < j < |res| ensures PriorityIn(table, res[i]) >= PriorityIn(table, res[j]) {
      assert res[j] == t[j - 1];
      if i > 0 {
        assert res[i] == t[i - 1];
      }
    }
  }

  lemma {:induction false} SortByPriorityIsSortedPermutation(table: map<ColonistRole, int>, s: seq<ColonistRole>)
    ensures multiset(SortByPriority(table, s)) == multiset(s)
    ensures NonIncreasing(table, SortByPriority(table, s))
  {
    if s != [] {
      var rest := SortByPriority(table, s[1..]);
      SortByPriorityIsSortedPermutation(table, s[1..]);
      InsertByPriorityKeepsOrder(table, s[0], rest);
      assert SortByPriority(table, s) == InsertByPriority(table, s[0], rest);
      assert s == [s[0]] + s[1..];
      assert multiset(s) == multiset(s[1..]) + multiset{s[0]};
    }
  }

  /**
   * The sorted active jobs hold every role with a positive priority
   * exactly once, no other role, and run from the highest priority down.
   */
  lemma ActiveJobsSortedSpec(table: map<ColonistRole, int>, r: ColonistRole)
    ensures multiset(ActiveJobsSorted(table))[r] == if PriorityIn(table, r) > 0 then 1 else 0
    ensures r in ActiveJobsSorted(table) <==> PriorityIn(table, r) > 0
    ensures NonIncreasing(table, ActiveJobsSorted(table))
  {
    SortByPriorityIsSortedPermutation(table, ActiveIn(table, AllRoles));
    ActiveInCounts(table, AllRoles, r);
    AllRolesListsEachRoleOnce(r);
    assert r in ActiveJobsSorted(table) <==> r in multiset(ActiveJobsSorted(table));
  }

  class WorkSettingsComponent {
    var priorities: map<ColonistRole, int>

    /** Every stored priority lies in 0..4. */
    ghost predicate Valid()
      reads this
    {
      forall r :: r in priorities ==> 0 <= priorities[r] <= MAX_PRIORITY
    }

    constructor ()
      ensures Valid()
      ensures forall r :: r in priorities && priorities[r] == 0
    {
      var table: map<ColonistRole, int> := map[];
      for i := 0 to |AllRoles|
        invariant forall r :: r in table <==> r in AllRoles[..i]
        invariant forall r :: r in table ==> table[r] == 0
      {
        table := table[AllRoles[i] := 0];
      }
      priorities := table;
      new;
      forall r: ColonistRole ensures r in priorities {
        assert AllRoles[..|AllRoles|] == AllRoles;
        AllRolesListsEachRoleOnce(r);
        assert r in multiset(AllRoles);
      }
    }

    /** Rejects a priority outside 0..4 (the source throws) and leaves the table unchanged. */
    method SetPriority(job: ColonistRole, p: int) returns (ok: bool)
      modifies this
      ensures ok <==> 0 <= p <= MAX_PRIORITY
      ensures ok ==> priorities == old(priorities)[job := p]
      ensures !ok ==> priorities == old(priorities)
      ensures ok ==> GetPriority(job) == p
      ensures forall r :: r != job ==> GetPriority(r) == old(GetPriority(r))
      ensures old(Valid()) ==> Valid()
    {
      if p < 0 || p > MAX_PRIORITY {
        return false;
      }
      priorities := priorities[job := p];
      ok := true;
    }

    function GetPriority(job: ColonistRole): int
      reads this
    {
      PriorityIn(priorities, job)
    }

    function GetActiveJobsSorted(): seq<ColonistRole>
      reads this
    {
      ActiveJobsSorted(priorities)
    }
  }
}
