/**
  The store of completed responses keyed by job id
  (src/Http/ResponseCollector.php). Keys are URL indices, so the original
  order can be recovered whatever order the transfers completed in.
 */
module ResponseCollector {
  import opened HttpJob

  datatype Collector = Collector(items: map<int, Response>)

  const Empty := Collector(map[])

  /** `add`: store under the response's id, replacing an earlier one; other ids untouched. */
  function Add(c: Collector, r: Response): (c': Collector)
    ensures r.id in c'.items && c'.items[r.id] == r
    ensures c'.items.Keys == c.items.Keys + {r.id}
    ensures forall k :: k in c.items && k != r.id ==> c'.items[k] == c.items[k]
  {
    Collector(c.items[r.id := r])
  }

  /** `getAll`: hand out everything stored and leave the collector empty. */
  function GetAll(c: Collector): (out: (map<int, Response>, Collector))
    ensures out.0 == c.items
    ensures out.1.items == map[]
  {
    (c.items, Empty)
  }

  /** Draining twice: the second drain yields nothing. */
  lemma GetAllDrains(c: Collector)
    ensures GetAll(GetAll(c).1).0 == map[]
  {
  }

  /** Adding the same response twice is the same as adding it once. */
  lemma AddIdempotent(c: Collector, r: Response)
    ensures Add(Add(c, r), r) == Add(c, r)
  {
  }
}
