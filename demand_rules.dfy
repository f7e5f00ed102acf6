/** The value-level rules of the demands blueprint: the attachment extension
    check, the filters and orders of the demand listings, the rank a new
    demand gets, and the priority rewrite of a reordering. */
module DemandRules {
  import opened Common

  // ---------------------------------------------------------------- files

  /** The position of the last occurrence of `c` in `s`. */
  function LastIndexOf(s: string, c: char): (r: Option<nat>)
    ensures r.Some? ==> r.value < |s| && s[r.value] == c && forall j | r.value < j < |s| :: s[j] != c
    ensures r.None? ==> forall j | 0 <= j < |s| :: s[j] != c
  {
    if s == [] then None
    else if s[|s| - 1] == c then Some(|s| - 1)
    else LastIndexOf(s[..|s| - 1], c)
  }

  function LowerChar(c: char): char {
    if 'A' <= c <= 'Z' then (c as int + 32) as char else c
  }

  function Lower(s: string): string {
    seq(|s|, i requires 0 <= i < |s| => LowerChar(s[i]))
  }

  /** A file name is accepted when it has a dot and the lower-cased text
      after its last dot is one of the configured extensions. */
  function AllowedFile(filename: string, allowed: set<string>): (ok: bool)
    ensures ok <==> exists i | 0 <= i < |filename| ::
                      && filename[i] == '.'
                      && (forall j | i < j < |filename| :: filename[j] != '.')
                      && Lower(filename[i + 1..]) in allowed
  {
    match LastIndexOf(filename, '.')
    case None => false
    case Some(i) => Lower(filename[i + 1..]) in allowed
  }

  // ------------------------------------------------------------- listings

  /** Which rows a listing keeps. */
  datatype Filter = PendingOnly | Everything

  /** The ORDER BY of a listing: `priority, created_at` ascending (the
      prioritize view), `created_at` descending (the full view), or
      `priority` ascending alone (the tracker's pending list). */
  datatype Ordering = ByPriorityThenAge | NewestFirst | ByPriority

  predicate Selected(f: Filter, d: Demand) {
    f == Everything || IsPending(d.status)
  }

  /** A lexicographic sort key; a listing is ascending in it. */
  datatype SortKey = SortKey(major: int, minor: int)

  function KeyOf(o: Ordering, d: Demand): SortKey {
    match o
    case ByPriorityThenAge => SortKey(d.priority, d.createdAt)
    case NewestFirst => SortKey(-d.createdAt, 0)
    case ByPriority => SortKey(d.priority, 0)
  }

  predicate KeyLe(a: SortKey, b: SortKey) {
    a.major < b.major || (a.major == b.major && a.minor <= b.minor)
  }

  predicate InTable(m: map<DemandId, Demand>, ids: seq<DemandId>) {
    forall i | 0 <= i < |ids| :: ids[i] in m
  }

  predicate Sorted(m: map<DemandId, Demand>, o: Ordering, ids: seq<DemandId>)
    requires InTable(m, ids)
  {
    forall i, j | 0 <= i < j < |ids| :: KeyLe(KeyOf(o, m[ids[i]]), KeyOf(o, m[ids[j]]))
  }

  function SelectedIds(m: map<DemandId, Demand>, f: Filter): set<DemandId> {
    set k | k in m && Selected(f, m[k])
  }

  /** `ids` is a listing of table `m`: every row the filter keeps, each
      once, and nothing else, in the order the listing asks for (rows whose
      keys tie may come in any order, as in SQL). */
  predicate IsView(m: map<DemandId, Demand>, f: Filter, o: Ordering, ids: seq<DemandId>) {
    && InTable(m, ids)
    && multiset(ids) == multiset(SelectedIds(m, f))
    && Sorted(m, o, ids)
  }

  /** Inserts `k` into a sorted listing, keeping it sorted. */
  function Insert(m: map<DemandId, Demand>, o: Ordering, ids: seq<DemandId>, k: DemandId): (r: seq<DemandId>)
    requires k in m && InTable(m, ids) && Sorted(m, o, ids)
    ensures InTable(m, r) && Sorted(m, o, r)
    ensures multiset(r) == multiset(ids) + multiset{k}
    decreases |ids|
  {
    if ids == [] then [k]
    else if KeyLe(KeyOf(o, m[k]), KeyOf(o, m[ids[0]])) then [k] + ids
    else
      var rest := Insert(m, o, ids[1..], k);
      assert ids == [ids[0]] + ids[1..];
      InsertAfterHead(m, o, ids, k, rest);
      [ids[0]] + rest
  }

  /** The head of a sorted listing stays in front when a later key is
      inserted behind it. */
  lemma InsertAfterHead(m: map<DemandId, Demand>, o: Ordering, ids: seq<DemandId>, k: DemandId, rest: seq<DemandId>)
    requires k in m && InTable(m, ids) && Sorted(m, o, ids) && ids != []
    requires !KeyLe(KeyOf(o, m[k]), KeyOf(o, m[ids[0]]))
    requires InTable(m, rest) && Sorted(m, o, rest)
    requires multiset(rest) == multiset(ids[1..]) + multiset{k}
    ensures InTable(m, [ids[0]] + rest) && Sorted(m, o, [ids[0]] + rest)
  {
    var r := [ids[0]] + rest;
    forall j | 0 <= j < |rest| ensures KeyLe(KeyOf(o, m[ids[0]]), KeyOf(o, m[rest[j]])) {
      assert rest[j] in multiset(rest);
      if rest[j] != k {
        assert rest[j] in multiset(ids[1..]);
        var i :| 0 <= i < |ids[1..]| && ids[1..][i] == rest[j];
        assert ids[i + 1] == rest[j];
      }
    }
    forall i, j | 0 <= i < j < |r| ensures KeyLe(KeyOf(o, m[r[i]]), KeyOf(o, m[r[j]])) {
      if i > 0 {
        assert r[i] == rest[i - 1] && r[j] == rest[j - 1];
      } else {
        assert r[j] == rest[j - 1];
      }
    }
  }

  /** A row is listed exactly when the filter keeps it. */
  lemma ViewMembers(m: map<DemandId, Demand>, f: Filter, o: Ordering, ids: seq<DemandId>, k: DemandId)
    requires IsView(m, f, o, ids)
    ensures k in ids <==> (k in m && Selected(f, m[k]))
  {
    assert k in ids <==> k in multiset(ids);
  }

  /** When no two kept rows tie on the sort key, a listing is determined by
      the table alone. */
  lemma {:induction false} ViewUnique(m: map<DemandId, Demand>, f: Filter, o: Ordering, a: seq<DemandId>, b: seq<DemandId>)
    requires IsView(m, f, o, a) && IsView(m, f, o, b)
    requires forall x, y | x in SelectedIds(m, f) && y in SelectedIds(m, f) && x != y :: KeyOf(o, m[x]) != KeyOf(o, m[y])
    ensures a == b
  {
    forall i | 0 <= i < |a| ensures a[i] in SelectedIds(m, f) {
      assert a[i] in multiset(a);
    }
    SortedUnique(m, o, a, b, SelectedIds(m, f));
  }

  lemma {:induction false} SortedUnique(m: map<DemandId, Demand>, o: Ordering, a: seq<DemandId>, b: seq<DemandId>, s: set<DemandId>)
    requires InTable(m, a) && InTable(m, b) && Sorted(m, o, a) && Sorted(m, o, b)
    requires multiset(a) == multiset(b)
    requires s <= m.Keys && forall i | 0 <= i < |a| :: a[i] in s
    requires forall x, y | x in s && y in s && x != y :: KeyOf(o, m[x]) != KeyOf(o, m[y])
    ensures a == b
    decreases |a|
  {
    if a != [] {
      TailsAgree(m, o, a, b, s);
      SortedUnique(m, o, a[1..], b[1..], s);
      assert a == [a[0]] + a[1..] && b == [b[0]] + b[1..];
    }
    else {
      assert |b| == |multiset(b)| == |multiset(a)| == 0;
    }
  }

  /** Two such listings agree on their first row, and what follows it
      meets the requirements again. */
  lemma TailsAgree(m: map<DemandId, Demand>, o: Ordering, a: seq<DemandId>, b: seq<DemandId>, s: set<DemandId>)
    requires InTable(m, a) && InTable(m, b) && Sorted(m, o, a) && Sorted(m, o, b)
    requires multiset(a) == multiset(b) && a != []
    requires s <= m.Keys && forall i | 0 <= i < |a| :: a[i] in s
    requires forall x, y | x in s && y in s && x != y :: KeyOf(o, m[x]) != KeyOf(o, m[y])
    ensures b != [] && a[0] == b[0]
    ensures InTable(m, a[1..]) && InTable(m, b[1..]) && Sorted(m, o, a[1..]) && Sorted(m, o, b[1..])
    ensures multiset(a[1..]) == multiset(b[1..])
    ensures forall i | 0 <= i < |a[1..]| :: a[1..][i] in s
  {
    assert |b| == |multiset(b)| == |multiset(a)| == |a|;
    HeadsEqual(m, o, a, b, s);
    TailMultiset(a);
    TailMultiset(b);
    SortedTail(m, o, a);
    SortedTail(m, o, b);
    assert forall i | 0 <= i < |a[1..]| :: a[1..][i] == a[i + 1];
  }

  /** Two sorted listings of the same rows, none of whose keys tie, start
      with the same row. */
  lemma HeadsEqual(m: map<DemandId, Demand>, o: Ordering, a: seq<DemandId>, b: seq<DemandId>, s: set<DemandId>)
    requires InTable(m, a) && InTable(m, b) && Sorted(m, o, a) && Sorted(m, o, b)
    requires multiset(a) == multiset(b) && a != [] && b != []
    requires s <= m.Keys && forall i | 0 <= i < |a| :: a[i] in s
    requires forall x, y | x in s && y in s && x != y :: KeyOf(o, m[x]) != KeyOf(o, m[y])
    ensures a[0] == b[0]
  {
    assert a[0] in multiset(b) && b[0] in multiset(a);
    HeadIsLeast(m, o, b, a[0]);
    HeadIsLeast(m, o, a, b[0]);
    assert b[0] in s by { var j :| 0 <= j < |a| && a[j] == b[0]; }
  }

  lemma HeadIsLeast(m: map<DemandId, Demand>, o: Ordering, a: seq<DemandId>, x: DemandId)
    requires InTable(m, a) && Sorted(m, o, a) && x in multiset(a)
    ensures x in m && KeyLe(KeyOf(o, m[a[0]]), KeyOf(o, m[x]))
  {
    var i :| 0 <= i < |a| && a[i] == x;
    if i > 0 { }
  }

  lemma TailMultiset(a: seq<DemandId>)
    requires a != []
    ensures multiset(a[1..]) == multiset(a) - multiset{a[0]}
  {
    assert a == [a[0]] + a[1..];
  }

  lemma SortedTail(m: map<DemandId, Demand>, o: Ordering, a: seq<DemandId>)
    requires InTable(m, a) && Sorted(m, o, a) && a != []
    ensures InTable(m, a[1..]) && Sorted(m, o, a[1..])
  {
    forall i, j | 0 <= i < j < |a[1..]| ensures KeyLe(KeyOf(o, m[a[1..][i]]), KeyOf(o, m[a[1..][j]])) {
      assert a[1..][i] == a[i + 1] && a[1..][j] == a[j + 1];
    }
  }

  // ----------------------------------------------------------- new demands

  /** `p` is `COALESCE(MAX(priority), -1)` over table `m`. */
  predicate IsTopPriority(m: map<DemandId, Demand>, p: int) {
    if m == map[] then p == -1
    else (exists k | k in m :: m[k].priority == p) && forall k | k in m :: m[k].priority <= p
  }

  /** The top priority of a table is unique. */
  lemma TopPriorityUnique(m: map<DemandId, Demand>, p: int, q: int)
    requires IsTopPriority(m, p) && IsTopPriority(m, q)
    ensures p == q
  {
    if m != map[] {
      var k :| k in m && m[k].priority == p;
      var l :| l in m && m[l].priority == q;
    }
  }

  // ------------------------------------------------------------ reordering

  /** An element of the `ordered_ids` list: a JSON string, or an integer
      written as its decimal text; null; an array, which the driver binds as
      a parenthesised list of its elements; or an object. */
  datatype IdItem = Text(text: string) | Null | Array(elems: seq<IdItem>) | Object

  /** Whether the driver can bind an element as the single value of
      `WHERE id = %s`: `(x)` is a value when `x` is, while `()`, `(x, y)`
      and an object make the UPDATE raise. */
  predicate Binds(it: IdItem) {
    match it
    case Text(_) => true
    case Null => true
    case Array(es) => |es| == 1 && Binds(es[0])
    case Object => false
  }

  /** The key an element selects in `WHERE id = %s`; `NULL` selects
      nothing, and `(x)` selects what `x` does. */
  function ItemKey(it: IdItem): Option<DemandId> {
    match it
    case Text(s) => ParseId(s)
    case Array(es) => if |es| == 1 then ItemKey(es[0]) else None
    case _ => None
  }

  /** `[3]` binds as `(3)` and selects demand 3; `[3, 4]` and `[]` do not
      bind. */
  lemma ArrayExample()
    ensures Binds(Array([Text("3")])) && ItemKey(Array([Text("3")])) == Some(3)
    ensures !Binds(Array([Text("3"), Text("4")])) && !Binds(Array([]))
  {
    assert ParseId("3") == Some(3);
  }

  /** The last position of the list whose element selects `k`. */
  function LastPosition(items: seq<IdItem>, k: DemandId): (r: Option<nat>)
    ensures r.Some? ==> r.value < |items| && ItemKey(items[r.value]) == Some(k)
                        && forall j | r.value < j < |items| :: ItemKey(items[j]) != Some(k)
    ensures r.None? ==> forall j | 0 <= j < |items| :: ItemKey(items[j]) != Some(k)
  {
    if items == [] then None
    else if ItemKey(items[|items| - 1]) == Some(k) then Some(|items| - 1)
    else LastPosition(items[..|items| - 1], k)
  }

  /** The table after `UPDATE demands SET priority = i WHERE id = items[i]`
      for every position i in turn: a listed demand ends at the last
      position that names it, every other row is as before. */
  function Reprioritized(m: map<DemandId, Demand>, items: seq<IdItem>): map<DemandId, Demand> {
    map k | k in m :: match LastPosition(items, k)
                      case Some(i) => m[k].(priority := i)
                      case None => m[k]
  }

  /** One UPDATE: the row `key` selects, if any, gets priority `i`. */
  function Rank(m: map<DemandId, Demand>, key: Option<DemandId>, i: int): map<DemandId, Demand> {
    if key.Some? && key.value in m then m[key.value := m[key.value].(priority := i)] else m
  }

  /** Running the UPDATEs one at a time reaches the rewrite of the whole
      prefix. */
  lemma ReprioritizedStep(m: map<DemandId, Demand>, items: seq<IdItem>, i: nat)
    requires i < |items|
    ensures Reprioritized(m, items[..i + 1]) == Rank(Reprioritized(m, items[..i]), ItemKey(items[i]), i)
  {
    var lhs, rhs := Reprioritized(m, items[..i + 1]), Rank(Reprioritized(m, items[..i]), ItemKey(items[i]), i);
    assert lhs.Keys == rhs.Keys;
    assert forall k | k in lhs :: lhs[k] == rhs[k] by {
      forall k | k in m ensures lhs[k] == rhs[k] {
        ReprioritizedAt(m, items, i, k);
      }
    }
  }

  lemma ReprioritizedAt(m: map<DemandId, Demand>, items: seq<IdItem>, i: nat, k: DemandId)
    requires i < |items| && k in m
    ensures Reprioritized(m, items[..i + 1])[k] == Rank(Reprioritized(m, items[..i]), ItemKey(items[i]), i)[k]
  {
    LastPositionStep(items, i, k);
  }

  /** The last position naming `k` in a longer prefix. */
  lemma LastPositionStep(items: seq<IdItem>, i: nat, k: DemandId)
    requires i < |items|
    ensures LastPosition(items[..i + 1], k)
            == if ItemKey(items[i]) == Some(k) then Some(i) else LastPosition(items[..i], k)
  {
    assert items[..i + 1][..i] == items[..i];
  }

  /** Before the first UPDATE the table is as it was. */
  lemma ReprioritizedEmpty(m: map<DemandId, Demand>)
    ensures Reprioritized(m, []) == m
  {
  }

  /** What a successful reordering promises: the same rows; only priorities
      change; a listed demand gets the position that names it (the last one
      when it is listed twice); a demand not listed keeps its priority. */
  lemma ReprioritizedRanks(m: map<DemandId, Demand>, items: seq<IdItem>)
    ensures Reprioritized(m, items).Keys == m.Keys
    ensures forall k | k in m :: Reprioritized(m, items)[k] == m[k].(priority := Reprioritized(m, items)[k].priority)
    ensures forall i | 0 <= i < |items| && ItemKey(items[i]).Some? && ItemKey(items[i]).value in m
                       && (forall j | i < j < |items| :: ItemKey(items[j]) != ItemKey(items[i])) ::
              Reprioritized(m, items)[ItemKey(items[i]).value].priority == i
    ensures forall k | k in m && (forall i | 0 <= i < |items| :: ItemKey(items[i]) != Some(k)) ::
              Reprioritized(m, items)[k] == m[k]
  {
    var r := Reprioritized(m, items);
    forall i | 0 <= i < |items| && ItemKey(items[i]).Some? && ItemKey(items[i]).value in m
               && (forall j | i < j < |items| :: ItemKey(items[j]) != ItemKey(items[i]))
      ensures r[ItemKey(items[i]).value].priority == i
    {
      var k := ItemKey(items[i]).value;
      var p := LastPosition(items, k);
      assert p.Some?;
      assert !(p.value < i) && !(i < p.value);
    }
  }

  /** The ordering of the reordering test: `['3', '1', '2']` ranks 3, 1
      and 2 at 0, 1 and 2. */
  lemma ReorderExample(m: map<DemandId, Demand>)
    requires 1 in m && 2 in m && 3 in m
    ensures Reprioritized(m, [Text("3"), Text("1"), Text("2")])[3].priority == 0
    ensures Reprioritized(m, [Text("3"), Text("1"), Text("2")])[1].priority == 1
    ensures Reprioritized(m, [Text("3"), Text("1"), Text("2")])[2].priority == 2
  {
    var items := [Text("3"), Text("1"), Text("2")];
    assert ParseId("3") == Some(3) && ParseId("1") == Some(1) && ParseId("2") == Some(2);
    assert ItemKey(items[0]) == Some(3) && ItemKey(items[1]) == Some(1) && ItemKey(items[2]) == Some(2);
    ReprioritizedRanks(m, items);
  }
}
