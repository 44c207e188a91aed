/** Building the job listing query from a filter (internal/store/jobs.go:63-110). */
module JobQuery {

  datatype Column = Status | UserId | TeamId

  /** The columns of a job row the query looks at. */
  datatype Row = Row(status: string, userId: string, teamId: string) {
    function Get(c: Column): string {
      match c
      case Status => status
      case UserId => userId
      case TeamId => teamId
    }
  }

  /** A filter; empty strings, no statuses and a limit of zero or less ask for nothing. */
  datatype JobFilter = JobFilter(
    status: string,
    userId: string,
    teamId: string,
    statuses: seq<string>,
    limit: int)

  /** Conditions over numbered placeholders: `column = $k`, or `column IN ($k, ...)`. */
  datatype Clause = Equals(column: Column, at: nat) | OneOf(column: Column, places: seq<nat>)

  datatype Arg = Text(s: string) | Number(n: int)

  /** The conjunction of `clauses`, with `LIMIT $k` if there is a limit. */
  datatype Query = Query(clauses: seq<Clause>, limit: seq<nat>)

  // ----- what a query means

  /** Placeholder $k stands for argument k, counted from one. */
  predicate Binds(args: seq<Arg>, k: nat, value: string) {
    1 <= k <= |args| && args[k - 1] == Text(value)
  }

  predicate Holds(c: Clause, args: seq<Arg>, row: Row) {
    match c
    case Equals(col, k) => Binds(args, k, row.Get(col))
    case OneOf(col, places) => exists i :: 0 <= i < |places| && Binds(args, places[i], row.Get(col))
  }

  predicate Selects(q: Query, args: seq<Arg>, row: Row) {
    forall c :: c in q.clauses ==> Holds(c, args, row)
  }

  /** What the filter asks for. */
  predicate Matches(f: JobFilter, row: Row) {
    && (f.status != "" ==> row.status == f.status)
    && (f.statuses != [] ==> row.status in f.statuses)
    && (f.userId != "" ==> row.userId == f.userId)
    && (f.teamId != "" ==> row.teamId == f.teamId)
  }

  // ----- which placeholders a query uses, in the order of its text

  function PlacesOf(c: Clause): seq<nat> {
    match c
    case Equals(_, k) => [k]
    case OneOf(_, places) => places
  }

  function ClausePlaces(cs: seq<Clause>): seq<nat> {
    if cs == [] then [] else ClausePlaces(cs[..|cs| - 1]) + PlacesOf(cs[|cs| - 1])
  }

  function Places(q: Query): seq<nat> {
    ClausePlaces(q.clauses) + q.limit
  }

  /** 1, 2, ..., n. */
  function UpTo(n: nat): (r: seq<nat>)
    ensures |r| == n
    ensures forall i :: 0 <= i < n ==> r[i] == i + 1
  {
    if n == 0 then [] else UpTo(n - 1) + [n]
  }

  lemma PlacesAppend(cs: seq<Clause>, c: Clause)
    ensures ClausePlaces(cs + [c]) == ClausePlaces(cs) + PlacesOf(c)
  {
    assert (cs + [c])[..|cs|] == cs;
  }

  // ----- building it

  /** The query built so far: its placeholders are exactly those of its arguments, in order, and
      the counter stands at the next one. */
  ghost predicate Numbered(clauses: seq<Clause>, args: seq<Arg>, i: nat) {
    ClausePlaces(clauses) == UpTo(|args|) && i == |args| + 1
  }

  /** The conditions built so far select what `p` says. */
  ghost predicate Means(clauses: seq<Clause>, args: seq<Arg>, p: Row -> bool) {
    forall row :: p(row) <==> forall c :: c in clauses ==> Holds(c, args, row)
  }

  lemma {:induction false} PlaceWithin(cs: seq<Clause>, c: Clause, k: nat)
    requires c in cs && k in PlacesOf(c)
    ensures k in ClausePlaces(cs)
    decreases cs
  {
    var init, last := cs[..|cs| - 1], cs[|cs| - 1];
    assert cs == init + [last];
    if c != last {
      PlaceWithin(init, c, k);
    }
  }

  /** More arguments do not change the conditions already built. */
  lemma HoldsStable(cs: seq<Clause>, args: seq<Arg>, more: seq<Arg>, c: Clause, row: Row)
    requires ClausePlaces(cs) == UpTo(|args|) && c in cs
    ensures Holds(c, args + more, row) <==> Holds(c, args, row)
  {
    forall k | k in PlacesOf(c)
      ensures 1 <= k <= |args|
    {
      PlaceWithin(cs, c, k);
    }
    match c
    case Equals(col, k) => assert k in PlacesOf(c);
    case OneOf(col, places) =>
      forall i | 0 <= i < |places|
        ensures Binds(args + more, places[i], row.Get(col)) <==> Binds(args, places[i], row.Get(col))
      {
        assert places[i] in PlacesOf(c);
      }
  }

  /** Adding one condition over new arguments conjoins what it says. */
  lemma Extend(cs: seq<Clause>, args: seq<Arg>, i: nat, p: Row -> bool, c: Clause, more: seq<Arg>, p': Row -> bool)
    requires Numbered(cs, args, i) && Means(cs, args, p)
    requires forall row :: p'(row) <==> p(row) && Holds(c, args + more, row)
    ensures Means(cs + [c], args + more, p')
  {
    forall row: Row
      ensures p'(row) <==> forall x :: x in cs + [c] ==> Holds(x, args + more, row)
    {
      forall x | x in cs
        ensures Holds(x, args + more, row) <==> Holds(x, args, row)
      {
        HoldsStable(cs, args, more, x, row);
      }
      assert forall x :: x in cs + [c] <==> x in cs || x == c;
    }
  }

  lemma MeansSame(cs: seq<Clause>, args: seq<Arg>, p: Row -> bool, p': Row -> bool)
    requires Means(cs, args, p) && forall row :: p'(row) <==> p(row)
    ensures Means(cs, args, p')
  {
    forall row: Row
      ensures p'(row) <==> forall c :: c in cs ==> Holds(c, args, row)
    {
      assert p'(row) <==> p(row);
    }
  }

  /** The part of the filter on one column. */
  predicate Wanted(value: string, actual: string) {
    value != "" ==> actual == value
  }

  function Also(p: Row -> bool, col: Column, value: string): Row -> bool {
    (row: Row) => p(row) && Wanted(value, row.Get(col))
  }

  /** Adds `column = $i` when the filter names a value, and moves the counter on. */
  method AddEquals(clauses: seq<Clause>, args: seq<Arg>, i: nat, col: Column, value: string, ghost p: Row -> bool)
    returns (clauses': seq<Clause>, args': seq<Arg>, i': nat)
    requires Numbered(clauses, args, i) && Means(clauses, args, p)
    ensures Numbered(clauses', args', i') && Means(clauses', args', Also(p, col, value))
    ensures args' == if value == "" then args else args + [Text(value)]
  {
    clauses', args', i' := clauses, args, i;
    if value != "" {
      var c := Equals(col, i);
      clauses' := clauses + [c];
      args' := args + [Text(value)];
      i' := i + 1;
      PlacesAppend(clauses, c);
      Extend(clauses, args, i, p, c, [Text(value)], Also(p, col, value));
    } else {
      MeansSame(clauses, args, p, Also(p, col, value));
    }
  }

  function Texts(values: seq<string>): (r: seq<Arg>)
    ensures |r| == |values|
    ensures forall i :: 0 <= i < |r| ==> r[i] == Text(values[i])
  {
    seq(|values|, i requires 0 <= i < |values| => Text(values[i]))
  }

  function AlsoOneOf(p: Row -> bool, values: seq<string>): Row -> bool {
    (row: Row) => p(row) && (values != [] ==> row.status in values)
  }

  /** Numbers one placeholder per status, moving the counter on each time, then adds
      `status IN (...)`. */
  method AddStatuses(clauses: seq<Clause>, args: seq<Arg>, i: nat, values: seq<string>, ghost p: Row -> bool)
    returns (clauses': seq<Clause>, args': seq<Arg>, i': nat)
    requires Numbered(clauses, args, i) && Means(clauses, args, p)
    ensures Numbered(clauses', args', i') && Means(clauses', args', AlsoOneOf(p, values))
    ensures args' == args + Texts(values)
  {
    clauses', args', i' := clauses, args, i;
    if |values| > 0 {
      var places: seq<nat>;
      places, args', i' := NumberStatuses(args, i, values);
      var c := OneOf(Status, places);
      clauses' := clauses + [c];
      PlacesAppend(clauses, c);
      assert UpTo(|args|) + places == UpTo(|args'|);
      OneOfMeans(args, values, places);
      Extend(clauses, args, i, p, c, Texts(values), AlsoOneOf(p, values));
    } else {
      assert args + Texts(values) == args;
      MeansSame(clauses, args, p, AlsoOneOf(p, values));
    }
  }

  /** The loop over the statuses: a placeholder and an argument for each. */
  method NumberStatuses(args: seq<Arg>, i: nat, values: seq<string>)
    returns (places: seq<nat>, args': seq<Arg>, i': nat)
    requires i == |args| + 1
    ensures |places| == |values| && forall j :: 0 <= j < |places| ==> places[j] == |args| + 1 + j
    ensures args' == args + Texts(values) && i' == |args'| + 1
  {
    places, args', i' := [], args, i;
    for k := 0 to |values|
      invariant |places| == k && i' == |args'| + 1
      invariant forall j :: 0 <= j < k ==> places[j] == |args| + 1 + j
      invariant args' == args + Texts(values)[..k]
    {
      places := places + [i'];
      args' := args' + [Text(values[k])];
      i' := i' + 1;
    }
    assert Texts(values)[..|values|] == Texts(values);
  }

  lemma OneOfMeans(args: seq<Arg>, values: seq<string>, places: seq<nat>)
    requires |places| == |values| && forall j :: 0 <= j < |places| ==> places[j] == |args| + 1 + j
    ensures forall row :: Holds(OneOf(Status, places), args + Texts(values), row) <==> row.status in values
  {
    var all := args + Texts(values);
    forall row: Row
      ensures Holds(OneOf(Status, places), all, row) <==> row.status in values
    {
      forall j | 0 <= j < |places|
        ensures Binds(all, places[j], row.Get(Status)) <==> values[j] == row.status
      {
        assert all[places[j] - 1] == Texts(values)[j];
      }
      SomePlace(all, values, places, row.status);
    }
  }

  lemma SomePlace(all: seq<Arg>, values: seq<string>, places: seq<nat>, actual: string)
    requires |places| == |values|
    requires forall j :: 0 <= j < |places| ==> (Binds(all, places[j], actual) <==> values[j] == actual)
    ensures (exists i :: 0 <= i < |places| && Binds(all, places[i], actual)) <==> actual in values
  {
    if actual in values {
      var j :| 0 <= j < |values| && values[j] == actual;
      assert Binds(all, places[j], actual);
    }
  }

  function Everything(): Row -> bool {
    (row: Row) => true
  }

  /** What the filter asks for, in the order its parts are added. */
  function Wish(f: JobFilter): Row -> bool {
    Also(Also(AlsoOneOf(Also(Everything(), Status, f.status), f.statuses), UserId, f.userId), TeamId, f.teamId)
  }

  predicate AllText(args: seq<Arg>) {
    forall i :: 0 <= i < |args| ==> args[i].Text?
  }

  /** The conditions on the status: one value, then any of several. */
  method BuildStatusConditions(f: JobFilter) returns (clauses: seq<Clause>, args: seq<Arg>, i: nat)
    ensures Numbered(clauses, args, i) && AllText(args)
    ensures Means(clauses, args, AlsoOneOf(Also(Everything(), Status, f.status), f.statuses))
  {
    clauses, args, i := [], [], 1;
    clauses, args, i := AddEquals(clauses, args, i, Status, f.status, Everything());
    clauses, args, i := AddStatuses(clauses, args, i, f.statuses, Also(Everything(), Status, f.status));
  }

  /** The WHERE part, which binds text only. */
  method BuildConditions(f: JobFilter) returns (clauses: seq<Clause>, args: seq<Arg>, i: nat)
    ensures Numbered(clauses, args, i) && Means(clauses, args, Wish(f)) && AllText(args)
  {
    ghost var p := AlsoOneOf(Also(Everything(), Status, f.status), f.statuses);
    clauses, args, i := BuildStatusConditions(f);
    clauses, args, i := AddEquals(clauses, args, i, UserId, f.userId, p);
    clauses, args, i := AddEquals(clauses, args, i, TeamId, f.teamId, Also(p, UserId, f.userId));
  }

  lemma SelectsWish(q: Query, f: JobFilter, args: seq<Arg>, more: seq<Arg>, row: Row)
    requires ClausePlaces(q.clauses) == UpTo(|args|) && Means(q.clauses, args, Wish(f))
    ensures Selects(q, args + more, row) <==> Matches(f, row)
  {
    forall c | c in q.clauses
      ensures Holds(c, args + more, row) <==> Holds(c, args, row)
    {
      HoldsStable(q.clauses, args, more, c, row);
    }
    WishIsFilter(f, row);
  }

  lemma WishIsFilter(f: JobFilter, row: Row)
    ensures Wish(f)(row) <==> Matches(f, row)
  {
    assert row.Get(Status) == row.status && row.Get(UserId) == row.userId && row.Get(TeamId) == row.teamId;
    var p := Also(Everything(), Status, f.status);
    assert p(row) <==> Wanted(f.status, row.status);
    var q := AlsoOneOf(p, f.statuses);
    assert q(row) <==> p(row) && (f.statuses != [] ==> row.status in f.statuses);
    var r := Also(q, UserId, f.userId);
    assert r(row) <==> q(row) && Wanted(f.userId, row.userId);
  }

  /** Every filter, with any number of statuses: the counter numbers every placeholder by its
      argument, every argument is used exactly once and in order, the conditions select exactly
      what the filter asks for, and the limit is bound last. */
  method BuildQuery(f: JobFilter) returns (q: Query, args: seq<Arg>)
    ensures Places(q) == UpTo(|args|)
    ensures forall row :: Selects(q, args, row) <==> Matches(f, row)
    ensures if f.limit > 0 then q.limit == [|args|] && args != [] && args[|args| - 1] == Number(f.limit)
            else q.limit == []
    ensures forall i :: 0 <= i < |args| && args[i].Number? ==> q.limit == [i + 1]
  {
    var clauses, conditions, i := BuildConditions(f);
    if f.limit > 0 {
      q := Query(clauses, [i]);
      args := conditions + [Number(f.limit)];
      forall row: Row ensures Selects(q, args, row) <==> Matches(f, row) {
        SelectsWish(q, f, conditions, [Number(f.limit)], row);
      }
    } else {
      q, args := Query(clauses, []), conditions;
      forall row: Row ensures Selects(q, args, row) <==> Matches(f, row) {
        SelectsWish(q, f, conditions, [], row);
        assert conditions + [] == conditions;
      }
    }
  }
}
