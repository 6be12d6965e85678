/**
 * Key/value lists in insertion order: a Python dict built by assignment and
 * the JavaScript object JSON.parse makes of it enumerate their keys this way.
 */
module Pairs {

  /** The keys, in order: `list(d)` in Python, `Object.keys(o)` in JavaScript. */
  function Keys<K, V>(kvs: seq<(K, V)>): (ks: seq<K>)
    ensures |ks| == |kvs| && forall i :: 0 <= i < |kvs| ==> ks[i] == kvs[i].0
  {
    seq(|kvs|, i requires 0 <= i < |kvs| => kvs[i].0)
  }
}
