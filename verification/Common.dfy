/** Row, socket and worker identities, which nothing here takes apart, and the option type. */
module Common {

  type UserId = string
  type SocketId = string
  type WorkerId = string
  type RequestId = string
  type GroupId = string
  type InvitationId = string

  datatype Option<T> = None | Some(value: T)

  function Get<K, V>(m: map<K, V>, k: K): Option<V> {
    if k in m then Some(m[k]) else None
  }

  lemma SubsetSize<K>(a: set<K>, b: set<K>)
    requires a <= b
    ensures |a| <= |b|
  {
    if a != b {
      assert b == a + (b - a);
    }
  }
}
