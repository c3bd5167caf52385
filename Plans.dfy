/** The plans handler: a read-only listing of the active hosting plans,
    cheapest first. */
module Plans {
  import opened Http

  /** A row of the `plans` table, with the columns the query selects. */
  datatype PlanRow = PlanRow(
    id: int,
    name: string,
    slug: string,
    price: real,
    maxPlayers: int,
    ramGb: int,
    cpuCores: int,
    storageGb: int,
    hasDdosProtection: bool,
    supportLevel: string,
    features: seq<string>,
    isPopular: bool,
    isActive: bool)

  datatype Payload = Empty | MethodNotAllowed | Listing(success: bool, plans: seq<PlanRow>)

  const Preflight: Response<Payload> := Response(200, Some("GET, OPTIONS"), Empty)

  /** `ORDER BY price ASC`: prices never decrease along the sequence. */
  predicate SortedByPrice(s: seq<PlanRow>)
  {
    forall i, j :: 0 <= i < j < |s| ==> s[i].price <= s[j].price
  }

  /** `WHERE is_active = true`: every active row, with its multiplicity, and no other. */
  function ActivePlans(rows: seq<PlanRow>): (active: seq<PlanRow>)
    ensures forall p :: p in active <==> p in rows && p.isActive
    ensures forall p :: multiset(active)[p] == if p.isActive then multiset(rows)[p] else 0
  {
    if rows == [] then []
    else
      assert rows == [rows[0]] + rows[1..];
      (if rows[0].isActive then [rows[0]] else []) + ActivePlans(rows[1..])
  }

  /** Puts `p` into a price-sorted sequence, before the first row no cheaper than `p`. */
  function Insert(p: PlanRow, sorted: seq<PlanRow>): (r: seq<PlanRow>)
    requires SortedByPrice(sorted)
    ensures SortedByPrice(r)
    ensures forall q :: q in r ==> q == p || q in sorted
    ensures multiset(r) == multiset(sorted) + multiset{p}
  {
    if sorted == [] || p.price <= sorted[0].price then
      PrependSorted(p, sorted);
      [p] + sorted
    else
      var rest := Insert(p, sorted[1..]);
      assert sorted == [sorted[0]] + sorted[1..];
      PrependSorted(sorted[0], rest);
      [sorted[0]] + rest
  }

  /** A row no dearer than any row of a sorted sequence can go in front of it. */
  lemma PrependSorted(x: PlanRow, s: seq<PlanRow>)
    requires SortedByPrice(s)
    requires forall q :: q in s ==> x.price <= q.price
    ensures SortedByPrice([x] + s)
  {
  }

  /** An ordering of the rows by ascending price. */
  function SortByPrice(rows: seq<PlanRow>): (r: seq<PlanRow>)
    ensures SortedByPrice(r)
    ensures multiset(r) == multiset(rows)
  {
    if rows == [] then []
    else
      assert rows == [rows[0]] + rows[1..];
      Insert(rows[0], SortByPrice(rows[1..]))
  }

  /** The rows the query returns: the active ones, cheapest first. */
  function ListPlans(table: seq<PlanRow>): (plans: seq<PlanRow>)
    ensures SortedByPrice(plans)
    ensures forall p :: p in plans <==> p in table && p.isActive
    ensures forall p :: multiset(plans)[p] == if p.isActive then multiset(table)[p] else 0
  {
    var active := ActivePlans(table);
    var plans := SortByPrice(active);
    assert forall p :: p in plans <==> p in active by {
      forall p ensures p in plans <==> p in active {
        assert p in plans <==> p in multiset(plans);
      }
    }
    plans
  }

  /** The handler, over the current contents of the table. Being a function,
      it cannot change the table. */
  function Handle(httpMethod: Field, table: seq<PlanRow>): (resp: Response<Payload>)
    ensures EffectiveMethod(httpMethod) == Text("OPTIONS") ==> resp == Preflight
    ensures EffectiveMethod(httpMethod) != Text("OPTIONS") && EffectiveMethod(httpMethod) != Text("GET") ==>
      resp == Response(405, None, MethodNotAllowed)
    ensures EffectiveMethod(httpMethod) == Text("GET") ==>
      && resp.status == 200 && resp.allowMethods == None
      && resp.body.Listing? && resp.body.success
      && SortedByPrice(resp.body.plans)
      && (forall p :: p in resp.body.plans <==> p in table && p.isActive)
      && (forall p :: multiset(resp.body.plans)[p] == if p.isActive then multiset(table)[p] else 0)
  {
    var verb := EffectiveMethod(httpMethod);
    if verb == Text("OPTIONS") then Preflight
    else if verb != Text("GET") then Response(405, None, MethodNotAllowed)
    else Response(200, None, Listing(true, ListPlans(table)))
  }
}
