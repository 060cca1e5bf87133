/** A total over the entries of a map, for termination measures of protocols with many participants. */
module Totals {
  ghost function Total<K, V>(entries: map<K, V>, weight: V -> nat): nat
    decreases |entries|
  {
    if entries == map[] then 0
    else
      var key :| key in entries;
      weight(entries[key]) + Total(entries - {key}, weight)
  }

  lemma {:induction false} TotalSplit<K, V>(entries: map<K, V>, weight: V -> nat, key: K)
    requires key in entries
    ensures Total(entries, weight) == weight(entries[key]) + Total(entries - {key}, weight)
    decreases |entries|
  {
    var first :| first in entries
      && Total(entries, weight) == weight(entries[first]) + Total(entries - {first}, weight);
    if first != key {
      TotalSplit(entries - {first}, weight, key);
      TotalSplit(entries - {key}, weight, first);
      assert entries - {first} - {key} == entries - {key} - {first};
    }
  }

  /** Removing one entry, or replacing it by a lighter one, lowers the total. */
  lemma TotalReplaced<K, V>(before: map<K, V>, after: map<K, V>, weight: V -> nat, key: K)
    requires key in before && before - {key} == after - {key}
    requires if key in after then weight(after[key]) < weight(before[key]) else weight(before[key]) > 0
    ensures Total(after, weight) < Total(before, weight)
  {
    TotalSplit(before, weight, key);
    if key in after {
      TotalSplit(after, weight, key);
    } else {
      assert after == after - {key};
    }
  }
}
