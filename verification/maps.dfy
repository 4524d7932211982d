// Visiting the entries of a map one at a time, in any order.
module Maps {
  /** Visiting one more entry of m, with todo still to come. */
  lemma VisitOne<V>(base: map<string, V>, m: map<string, V>, todo: set<string>, t: string)
    requires t in todo && todo <= m.Keys
    ensures base + (m - (todo - {t})) == (base + (m - todo))[t := m[t]]
  {
  }

  lemma Nothing<V>(m: map<string, V>)
    ensures m - {} == m
    ensures m - m.Keys == map[]
    ensures m + map[] == m
  {
  }

  lemma CopyOne<V>(m: map<string, V>, todo: set<string>, t: string)
    requires t in todo && todo <= m.Keys
    ensures m - (todo - {t}) == (m - todo)[t := m[t]]
  {
  }

  lemma RemoveOne<V>(base: map<string, V>, removed: set<string>, todo: set<string>, t: string)
    requires t in todo && todo <= removed <= base.Keys
    ensures base - (removed - (todo - {t})) == base - (removed - todo) - {t}
    ensures t in base - (removed - todo)
  {
  }
}
