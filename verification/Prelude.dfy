/** Small shared vocabulary: optional values, outcomes that may raise, and lookups in
    finite maps the way Python's `dict.get(key, default)` reads them. */
module Prelude {

  datatype Option<+T> = None | Some(value: T) {
    function GetOr(default: T): T {
      match this
      case Some(v) => v
      case None => default
    }
  }

  /** The result of Python code that either returns a value or raises. */
  datatype Outcome<+T> = Returned(value: T) | Raised

  /** `m.get(k)` */
  function Get<K, V>(m: map<K, V>, k: K): Option<V> {
    if k in m then Some(m[k]) else None
  }

  /** `m.get(k, default)` */
  function GetDefault<K, V>(m: map<K, V>, k: K, default: V): V {
    if k in m then m[k] else default
  }

  predicate Distinct<T(==)>(s: seq<T>) {
    forall i, j :: 0 <= i < j < |s| ==> s[i] != s[j]
  }

  /** The later of two times, either of which may be missing. */
  function Later(a: Option<int>, b: Option<int>): Option<int> {
    if a.None? then b else if b.None? || b.value <= a.value then a else b
  }

  function Elements<T>(s: seq<T>): set<T> {
    set x <- s
  }

  lemma {:induction false} ElementsOf<T>(s: seq<T>)
    requires Distinct(s)
    ensures |Elements(s)| == |s|
  {
    if s != [] {
      var init, last := s[..|s| - 1], s[|s| - 1];
      ElementsOf(init);
      assert s == init + [last];
      assert Elements(s) == Elements(init) + {last} && last !in init;
    }
  }
}
