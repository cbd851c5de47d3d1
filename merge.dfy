/** The forecast table the client builds: time, then field name, then level,
    then the value of that field at that level and time. */
module Merge {
  import opened Outcomes

  type Forecasts<V> = map<string, map<string, map<int, V>>>

  /** The value stored for one time, field and level, if any. */
  function Get<V>(m: Forecasts<V>, time: string, field: string, level: int): Option<V>
  {
    if time in m && field in m[time] && level in m[time][field] then Some(m[time][field][level]) else None
  }

  /** Every time holds at least one field and every field at least one level:
      the client only creates an entry on the way to storing a value. */
  ghost predicate NoEmptyEntries<V>(m: Forecasts<V>)
  {
    forall t :: t in m ==> m[t] != map[] && forall f :: f in m[t] ==> m[t][f] != map[]
  }

  /** Stores one value, creating the time and field entries when they are missing. */
  function Put<V>(m: Forecasts<V>, time: string, field: string, level: int, v: V): (r: Forecasts<V>)
    ensures Get(r, time, field, level) == Some(v)
    ensures forall t, f, l :: Get(r, t, f, l) != Get(m, t, f, l) ==> t == time && f == field && l == level
    ensures r.Keys == m.Keys + {time}
    ensures NoEmptyEntries(m) ==> NoEmptyEntries(r)
  {
    var fields := if time in m then m[time] else map[];
    var levels := if field in fields then fields[field] else map[];
    m[time := fields[field := levels[level := v]]]
  }

  /** Pairs the two lists position by position, stopping at the end of the shorter. */
  function Zip<A, B>(xs: seq<A>, ys: seq<B>): (r: seq<(A, B)>)
    ensures |r| == if |xs| <= |ys| then |xs| else |ys|
    ensures forall i :: 0 <= i < |r| ==> r[i] == (xs[i], ys[i])
  {
    if xs == [] || ys == [] then [] else [(xs[0], ys[0])] + Zip(xs[1..], ys[1..])
  }

  /** The value of the last pair whose time is `t`. */
  function LastFor<V>(pairs: seq<(string, V)>, t: string): (r: Option<V>)
    ensures r.None? <==> forall i :: 0 <= i < |pairs| ==> pairs[i].0 != t
    ensures r.Some? ==>
      exists i :: 0 <= i < |pairs| && pairs[i] == (t, r.value) && forall j :: i < j < |pairs| ==> pairs[j].0 != t
  {
    if pairs == [] then None
    else if pairs[|pairs| - 1].0 == t then Some(pairs[|pairs| - 1].1)
    else LastFor(pairs[..|pairs| - 1], t)
  }

  /** The times of the pairs. */
  function Times<V>(pairs: seq<(string, V)>): set<string>
  {
    set i | 0 <= i < |pairs| :: pairs[i].0
  }

  /** Stores the pairs one after the other under one field and level. */
  function MergeAll<V>(m: Forecasts<V>, field: string, level: int, pairs: seq<(string, V)>): (r: Forecasts<V>)
    ensures r.Keys == m.Keys + Times(pairs)
    ensures NoEmptyEntries(m) ==> NoEmptyEntries(r)
  {
    if pairs == [] then m
    else
      var last := pairs[|pairs| - 1];
      var r := Put(MergeAll(m, field, level, pairs[..|pairs| - 1]), last.0, field, level, last.1);
      assert Times(pairs) == Times(pairs[..|pairs| - 1]) + {last.0} by {
        forall t | t in Times(pairs) ensures t in Times(pairs[..|pairs| - 1]) + {last.0} {
          var i :| 0 <= i < |pairs| && pairs[i].0 == t;
          if i < |pairs| - 1 { assert pairs[..|pairs| - 1][i].0 == t; }
        }
      }
      r
  }

  /** After merging, a lookup under the merged field and level finds the last
      value given for that time; every other lookup finds what was there before. */
  lemma {:induction false} MergeLookup<V>(m: Forecasts<V>, field: string, level: int, pairs: seq<(string, V)>,
                                          t: string, f: string, l: int)
    ensures Get(MergeAll(m, field, level, pairs), t, f, l)
         == if f == field && l == level && LastFor(pairs, t).Some? then LastFor(pairs, t) else Get(m, t, f, l)
  {
    if pairs != [] {
      MergeLookup(m, field, level, pairs[..|pairs| - 1], t, f, l);
    }
  }

  lemma MergeStep<V>(m: Forecasts<V>, field: string, level: int, pairs: seq<(string, V)>, i: nat)
    requires i < |pairs|
    ensures MergeAll(m, field, level, pairs[..i + 1])
         == Put(MergeAll(m, field, level, pairs[..i]), pairs[i].0, field, level, pairs[i].1)
  {
    assert pairs[..i + 1][..i] == pairs[..i];
  }

  /** The body of the merge loop: creates the time entry and the field
      entry when missing, then sets the level's value; the same as `Put`. */
  method Store<V>(m: Forecasts<V>, time: string, field: string, level: int, v: V) returns (r: Forecasts<V>)
    ensures r == Put(m, time, field, level, v)
  {
    r := m;
    if time !in r {
      r := r[time := map[]];
    }
    if field !in r[time] {
      r := r[time := r[time][field := map[]]];
    }
    r := r[time := r[time][field := r[time][field][level := v]]];
    var fields := if time in m then m[time] else map[];
    var levels := if field in fields then fields[field] else map[];
    assert r[time][field] == levels[level := v];
    assert r[time] == fields[field := levels[level := v]];
  }

  /** The client's merge loop: walks the zipped times and values, storing
      each value under its time, the field and the level. */
  method MergeLoop<V>(m: Forecasts<V>, field: string, level: int, times: seq<string>, data: seq<V>)
    returns (r: Forecasts<V>)
    ensures r == MergeAll(m, field, level, Zip(times, data))
  {
    ghost var pairs := Zip(times, data);
    r := m;
    var i := 0;
    while i < |times| && i < |data|
      invariant 0 <= i <= |pairs|
      invariant r == MergeAll(m, field, level, pairs[..i])
    {
      r := Store(r, times[i], field, level, data[i]);
      MergeStep(m, field, level, pairs, i);
      i := i + 1;
    }
    assert pairs[..i] == pairs;
  }
}
