/**
 * The council registry (api/helpers/modelSelector.js): a fixed table of four
 * models, each tagged with the role it plays, its token budget and its
 * execution priority, and the selection that lists them by ascending priority.
 */
module ModelSelector {
  import opened Wrappers

  /** One council member, as the table stores it and the `members_selected` event carries it. */
  datatype Member = Member(
    id: string,
    role: string,
    avatar: string,
    color: string,
    allocatedTokens: nat,
    priority: int)

  const Researcher: string := "The Researcher"
  const Analyst: string := "The Analyst"
  const Philosopher: string := "The Philosopher"
  const Judge: string := "The Judge"

  /** The roles in the order the council runs them. */
  const Roles: seq<string> := [Researcher, Analyst, Philosopher, Judge]

  const ResearcherMember: Member :=
    Member("compound-beta", Researcher, "\U{1F310}", "#10b981", 4096, 0)
  const AnalystMember: Member :=
    Member("llama-3.1-8b-instant", Analyst, "\U{1F50D}", "#3b82f6", 2048, 1)
  const PhilosopherMember: Member :=
    Member("llama-3.3-70b-versatile", Philosopher, "\U{1F9D9}\U{200D}\U{2642}\U{FE0F}", "#8b5cf6", 2048, 2)
  const JudgeMember: Member :=
    Member("openai/gpt-oss-120b", Judge, "\U{2696}\U{FE0F}", "#ec4899", 4096, 3)

  /** `this.models`: the registry entries keyed by model id, in insertion order. */
  const Table: seq<(string, Member)> := [
    (ResearcherMember.id, ResearcherMember),
    (AnalystMember.id, AnalystMember),
    (PhilosopherMember.id, PhilosopherMember),
    (JudgeMember.id, JudgeMember)
  ]

  /**
   * `Object.values(table)`: the entries in insertion order. JavaScript lists
   * integer-like keys first, in ascending order; the registry's keys are model
   * ids, none of them integer-like, so insertion order is the order here.
   */
  function Values(table: seq<(string, Member)>): (r: seq<Member>)
    ensures |r| == |table| && forall i :: 0 <= i < |table| ==> r[i] == table[i].1
  {
    seq(|table|, i requires 0 <= i < |table| => table[i].1)
  }

  predicate SortedByPriority(s: seq<Member>) {
    forall i, j :: 0 <= i < j < |s| ==> s[i].priority <= s[j].priority
  }

  /** Puts `m` before the first member whose priority is not smaller. */
  function Insert(m: Member, s: seq<Member>): (r: seq<Member>)
    requires SortedByPriority(s)
    ensures SortedByPriority(r)
    ensures multiset(r) == multiset(s) + multiset{m}
    ensures |r| == |s| + 1 && (r[0] == m || (s != [] && r[0] == s[0]))
    decreases |s|
  {
    if s == [] || m.priority <= s[0].priority then
      SortedCons(m, s);
      [m] + s
    else
      var rest := Insert(m, s[1..]);
      assert s == [s[0]] + s[1..];
      SortedCons(s[0], rest);
      [s[0]] + rest
  }

  lemma SortedCons(m: Member, s: seq<Member>)
    requires SortedByPriority(s) && (s == [] || m.priority <= s[0].priority)
    ensures SortedByPriority([m] + s)
  {
    forall i, j | 0 <= i < j < |[m] + s| ensures ([m] + s)[i].priority <= ([m] + s)[j].priority {
      if i == 0 && j > 1 {
        assert s[0].priority <= s[j - 1].priority;
      }
    }
  }

  /**
   * `council.sort((a, b) => a.priority - b.priority)`: the members ordered by
   * ascending priority, a permutation of the input.
   */
  function SortByPriority(s: seq<Member>): (r: seq<Member>)
    ensures SortedByPriority(r)
    ensures multiset(r) == multiset(s)
    decreases |s|
  {
    if s == [] then []
    else
      assert s == [s[0]] + s[1..];
      Insert(s[0], SortByPriority(s[1..]))
  }

  /** A list already in priority order is left as it is. */
  lemma {:induction false} SortKeepsSorted(s: seq<Member>)
    requires SortedByPriority(s)
    ensures SortByPriority(s) == s
    decreases |s|
  {
    if s != [] {
      SortKeepsSorted(s[1..]);
      assert s == [s[0]] + s[1..];
    }
  }

  /** `selectOptimalModels()` over a registry table. */
  function SelectOptimalModels(table: seq<(string, Member)>): (council: seq<Member>)
    ensures SortedByPriority(council)
    ensures multiset(council) == multiset(Values(table))
  {
    SortByPriority(Values(table))
  }

  /** The first member with the given role: `councilMembers.find(m => m.role === role)`. */
  function FindRole(members: seq<Member>, role: string): (r: Option<Member>)
    ensures r.Some? ==> r.value in members && r.value.role == role
    ensures r.None? ==> forall m :: m in members ==> m.role != role
  {
    if members == [] then None
    else if members[0].role == role then Some(members[0])
    else FindRole(members[1..], role)
  }

  /** `find` returns the first member with the role: none before it holds the role. */
  lemma {:induction false} FindRoleFirst(members: seq<Member>, role: string)
    ensures FindRole(members, role).Some? ==>
      exists i :: 0 <= i < |members| && members[i] == FindRole(members, role).value &&
                  forall j :: 0 <= j < i ==> members[j].role != role
    decreases |members|
  {
    if members != [] && members[0].role != role {
      FindRoleFirst(members[1..], role);
      var r := FindRole(members, role);
      if r.Some? {
        var i :| 0 <= i < |members[1..]| && members[1..][i] == r.value &&
                 forall j :: 0 <= j < i ==> members[1..][j].role != role;
        assert members[i + 1] == r.value;
        assert forall j :: 0 <= j < i + 1 ==> members[j].role != role by {
          forall j | 0 <= j < i + 1 ensures members[j].role != role {
            if j > 0 { assert members[j] == members[1..][j - 1]; }
          }
        }
      }
    }
  }

  /** The registry's members in insertion order. */
  const Members: seq<Member> := [ResearcherMember, AnalystMember, PhilosopherMember, JudgeMember]

  /**
   * The shipped registry lists the four members in role order, so the selection
   * is exactly the table's entries, Researcher(0), Analyst(1), Philosopher(2),
   * Judge(3).
   */
  lemma SelectionOfTable()
    ensures SelectOptimalModels(Table) == Values(Table) == Members
    ensures |Members| == 4
    ensures forall i :: 0 <= i < 4 ==> Members[i].role == Roles[i] && Members[i].priority == i
  {
    TableValues();
    SortKeepsSorted(Members);
    MembersInRoleOrder();
  }

  lemma MembersInRoleOrder()
    ensures forall i :: 0 <= i < 4 ==> Members[i].role == Roles[i] && Members[i].priority == i
  {
    forall i | 0 <= i < 4 ensures Members[i].role == Roles[i] && Members[i].priority == i {
      if i == 0 {
        assert Members[0] == ResearcherMember;
      } else if i == 1 {
        assert Members[1] == AnalystMember;
      } else if i == 2 {
        assert Members[2] == PhilosopherMember;
      } else {
        assert Members[3] == JudgeMember;
      }
    }
  }

  lemma TableValues()
    ensures Values(Table) == Members
    ensures |Members| == 4 && SortedByPriority(Members)
  {
    assert Values(Table) == Members;
  }

  /** The table's invariants: key = id, distinct roles and priorities, positive budgets. */
  lemma TableWellFormed()
    ensures forall i :: 0 <= i < |Table| ==> Table[i].0 == Table[i].1.id && Table[i].1.allocatedTokens > 0
    ensures forall i, j :: 0 <= i < j < |Table| ==>
              Table[i].1.role != Table[j].1.role && Table[i].1.priority != Table[j].1.priority
              && Table[i].0 != Table[j].0
  {
  }
}
