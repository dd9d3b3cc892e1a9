/** Facts about finite maps used by several modules. */
module Maps {

  /** Updating the right operand of a merge is updating the merge. */
  lemma OverrideUpdate<K, V>(g: map<K, V>, u: map<K, V>, k: K, v: V)
    ensures (g + u)[k := v] == g + u[k := v]
  {
  }
}
