/**
 * The order store: a table from order id to order, and the three derived
 * queries the service uses besides lookup by id (by user, by status with a
 * creation time strictly before a cutoff, and by the item's artist).
 *
 * A query scans the table and lists every matching order exactly once; the
 * order of the list is the store's own and is left unspecified.
 */
module OrderRepository {
  import opened OrderModel

  datatype Query =
    | ByUserId(userId: string)
    | ByStatusAndCreatedAtBefore(status: OrderStatus, cutoff: int)
    | ByItemArtistId(artistId: string)

  /** The meaning of each derived query: which orders it selects. */
  predicate Matches(q: Query, o: Order) {
    match q
    case ByUserId(u) => o.userId == u
    case ByStatusAndCreatedAtBefore(s, t) => o.status == s && o.createdAt < t
    case ByItemArtistId(a) => o.item.artistId == a
  }

  /** Every order is stored under its own id. */
  ghost predicate IdsConsistent(table: map<string, Order>) {
    forall id :: id in table ==> table[id].id == id
  }

  function MatchingIds(table: map<string, Order>, q: Query): (ids: set<string>)
    ensures ids <= table.Keys
  {
    set id | id in table && Matches(q, table[id])
  }

  /** No order appears twice in the list. */
  ghost predicate DistinctIds(os: seq<Order>) {
    forall i, j :: 0 <= i < j < |os| ==> os[i].id != os[j].id
  }

  /** `os` lists the stored orders whose ids are in `ids`, each exactly once. */
  ghost predicate Enumerates(os: seq<Order>, table: map<string, Order>, ids: set<string>) {
    && (forall i :: 0 <= i < |os| ==> os[i].id in ids && os[i].id in table && table[os[i].id] == os[i])
    && (forall id :: id in ids && id in table ==> table[id] in os)
    && DistinctIds(os)
  }

  /** Runs a derived query against the table. */
  method Find(table: map<string, Order>, q: Query) returns (found: seq<Order>)
    requires IdsConsistent(table)
    ensures Enumerates(found, table, MatchingIds(table, q))
  {
    var unseen := table.Keys;
    found := [];
    while unseen != {}
      invariant unseen <= table.Keys
      invariant forall i :: 0 <= i < |found| ==>
        found[i].id in table && table[found[i].id] == found[i] && found[i].id !in unseen && Matches(q, found[i])
      invariant forall id :: id in table && id !in unseen && Matches(q, table[id]) ==> table[id] in found
      invariant DistinctIds(found)
      decreases unseen
    {
      var id :| id in unseen;
      if Matches(q, table[id]) {
        found := found + [table[id]];
      }
      unseen := unseen - {id};
    }
  }
}
