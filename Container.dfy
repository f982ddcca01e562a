/** A partitioned document container, as the storages use one: documents are
    addressed by partition key and id; a missing document is "not found". */
module Container {
  import opened Common

  type Container<E> = map<string, map<string, E>>

  /** The documents of one partition; a partition nobody wrote to is empty. */
  function Partition<E>(c: Container<E>, pk: string): map<string, E> {
    if pk in c then c[pk] else map[]
  }

  predicate Contains<E>(c: Container<E>, pk: string, id: string) {
    id in Partition(c, pk)
  }

  /** ReadItem: the document at (pk, id), or None for "not found". */
  function Read<E>(c: Container<E>, pk: string, id: string): (r: Option<E>)
    ensures r.Some? <==> Contains(c, pk, id)
  {
    if id in Partition(c, pk) then Some(Partition(c, pk)[id]) else None
  }

  /** UpsertItem: creates or replaces the document at (pk, id). */
  function Upsert<E>(c: Container<E>, pk: string, id: string, e: E): (r: Container<E>)
    ensures Read(r, pk, id) == Some(e)
    ensures forall p, i :: p != pk || i != id ==> Read(r, p, i) == Read(c, p, i)
  {
    c[pk := Partition(c, pk)[id := e]]
  }

  /** DeleteItem of a document that exists. */
  function DeleteItem<E>(c: Container<E>, pk: string, id: string): (r: Container<E>)
    requires Contains(c, pk, id)
    ensures Read(r, pk, id) == None
    ensures forall p, i :: p != pk || i != id ==> Read(r, p, i) == Read(c, p, i)
  {
    c[pk := c[pk] - {id}]
  }

  /** Upserting the same address twice keeps only the later document. */
  lemma UpsertOverwrites<E>(c: Container<E>, pk: string, id: string, e: E, e': E)
    ensures Upsert(Upsert(c, pk, id, e), pk, id, e') == Upsert(c, pk, id, e')
  {
    assert Partition(Upsert(c, pk, id, e), pk)[id := e'] == Partition(c, pk)[id := e'];
  }

  /** Upserts at different addresses commute. */
  lemma UpsertCommutes<E>(c: Container<E>, pk: string, id: string, e: E, pk': string, id': string, e': E)
    requires pk != pk' || id != id'
    ensures Upsert(Upsert(c, pk, id, e), pk', id', e') == Upsert(Upsert(c, pk', id', e'), pk, id, e)
  {
    if pk == pk' {
      assert Partition(c, pk)[id := e][id' := e'] == Partition(c, pk)[id' := e'][id := e];
    }
  }
}
