/** The derived idempotency key: a hash of namespaced, separator-joined identifiers. */
module Idempotency {
  import opened Text
  import opened Uuids

  const NAMESPACE: string := "synthia.integration.execution.v1"

  type Key = string

  /** The text that is hashed. */
  function Material(tenant: Uuid, workItem: Uuid, operation: Uuid): (text: string)
  {
    Join([NAMESPACE, Render(tenant), Render(workItem), Render(operation)], UNIT_SEPARATOR)
  }

  /** The namespace and the three identifiers, organisation first, with a separator between each two. */
  lemma MaterialSpelledOut(tenant: Uuid, workItem: Uuid, operation: Uuid)
    ensures Material(tenant, workItem, operation) ==
            "synthia.integration.execution.v1" + ['\U{1F}'] + (Render(tenant) + ['\U{1F}']
            + (Render(workItem) + ['\U{1F}'] + Render(operation)))
  {
    var t, w, o := Render(tenant), Render(workItem), Render(operation);
    hide Render, Join;
    JoinPrepend(NAMESPACE, [t, w, o], UNIT_SEPARATOR);
    JoinPrepend(t, [w, o], UNIT_SEPARATOR);
    JoinPrepend(w, [o], UNIT_SEPARATOR);
    assert [NAMESPACE] + [t, w, o] == [NAMESPACE, t, w, o] && [t] + [w, o] == [t, w, o] && [w] + [o] == [w, o];
    JoinOne(o, UNIT_SEPARATOR);
  }

  /** The key, over whichever hash the deployment uses. */
  function DeriveKey(hash: string -> Key, tenant: Uuid, workItem: Uuid, operation: Uuid): (key: Key)
  {
    hash(Material(tenant, workItem, operation))
  }

  /** The same, as the function the execution leg is run with. */
  type Deriver = (Uuid, Uuid, Uuid) -> Key

  function DeriverOf(hash: string -> Key): (derive: Deriver)
  {
    (tenant: Uuid, workItem: Uuid, operation: Uuid) => DeriveKey(hash, tenant, workItem, operation)
  }

  /** What is assumed of SHA-256. */
  ghost predicate CollisionFree(hash: string -> Key)
  {
    forall a, b :: hash(a) == hash(b) ==> a == b
  }

  /** The joined material determines the three identifiers. */
  lemma MaterialInjective(t1: Uuid, w1: Uuid, o1: Uuid, t2: Uuid, w2: Uuid, o2: Uuid)
    requires Material(t1, w1, o1) == Material(t2, w2, o2)
    ensures t1 == t2 && w1 == w2 && o1 == o2
  {
    var a := [NAMESPACE, Render(t1), Render(w1), Render(o1)];
    var b := [NAMESPACE, Render(t2), Render(w2), Render(o2)];
    hide Join, Split, Render;
    assert UNIT_SEPARATOR !in NAMESPACE;
    RenderAlphabet(t1, UNIT_SEPARATOR);
    RenderAlphabet(w1, UNIT_SEPARATOR);
    RenderAlphabet(o1, UNIT_SEPARATOR);
    RenderAlphabet(t2, UNIT_SEPARATOR);
    RenderAlphabet(w2, UNIT_SEPARATOR);
    RenderAlphabet(o2, UNIT_SEPARATOR);
    SplitJoin(a, UNIT_SEPARATOR);
    SplitJoin(b, UNIT_SEPARATOR);
    assert a == b;
    assert a[1] == b[1] && a[2] == b[2] && a[3] == b[3];
    RenderInjective(t1, t2);
    RenderInjective(w1, w2);
    RenderInjective(o1, o2);
  }

  /** Two operations share a key exactly when they are the same operation. */
  lemma DeriveKeyInjective(
    hash: string -> Key, t1: Uuid, w1: Uuid, o1: Uuid, t2: Uuid, w2: Uuid, o2: Uuid)
    requires CollisionFree(hash)
    ensures DeriveKey(hash, t1, w1, o1) == DeriveKey(hash, t2, w2, o2) <==>
            t1 == t2 && w1 == w2 && o1 == o2
  {
    if DeriveKey(hash, t1, w1, o1) == DeriveKey(hash, t2, w2, o2) {
      MaterialInjective(t1, w1, o1, t2, w2, o2);
    }
  }
}
