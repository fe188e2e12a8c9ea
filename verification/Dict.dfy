/** Dense dictionaries: names numbered 0, 1, 2, ... in order of first appearance. */
module Dict {

  /** `numbers` and `names` are inverse to each other. */
  ghost predicate Dense<N>(numbers: map<N, nat>, names: seq<N>) {
    && (forall i :: 0 <= i < |names| ==> names[i] in numbers && numbers[names[i]] == i)
    && (forall n :: n in numbers ==> numbers[n] < |names| && names[numbers[n]] == n)
  }

  /** A dense dictionary that also counts how often each name was added. */
  class FreqDict {
    var si: map<string, nat>
    var names: seq<string>
    var cnt: seq<nat>

    ghost predicate Valid()
      reads this
    {
      Dense(si, names) && |cnt| == |names|
    }

    constructor ()
      ensures Valid() && names == []
    {
      si, names, cnt := map[], [], [];
    }

    /** The number a name has, or would get next. */
    function IdAfter(s: string): (y: nat)
      requires Valid()
      reads this
      ensures y <= |names| && (y < |names| <==> s in names)
    {
      if s in si then si[s] else |names|
    }

    method Add(s: string) returns (y: nat)
      requires Valid()
      modifies this
      ensures Valid() && y == old(IdAfter(s))
      ensures names == WithName(old(names), s) && y < |names| && names[y] == s
      ensures cnt == if s in old(names) then old(cnt)[y := old(cnt)[y] + 1] else old(cnt) + [1]
    {
      if s in si {
        y := si[s];
        cnt := cnt[y := cnt[y] + 1];
      } else {
        y := |names|;
        si := si[s := y];
        names := names + [s];
        cnt := cnt + [1];
      }
    }

    method AddNoCount(s: string) returns (y: nat)
      requires Valid()
      modifies this
      ensures Valid() && y == old(IdAfter(s))
      ensures names == WithName(old(names), s) && y < |names| && names[y] == s
      ensures cnt == if s in old(names) then old(cnt) else old(cnt) + [0]
    {
      if s in si {
        y := si[s];
      } else {
        y := |names|;
        si := si[s := y];
        names := names + [s];
        cnt := cnt + [0];
      }
    }

    function Id(s: string): (y: int)
      requires Valid()
      reads this
      ensures y == -1 <==> s !in names
      ensures s in names ==> 0 <= y < |names| && names[y] == s
    {
      if s in si then si[s] else -1
    }

    function Freq(id: nat): nat
      requires Valid()
      reads this
    {
      if id >= |cnt| then 0 else cnt[id]
    }
  }

  const NOT_ID := -1

  /** A dense dictionary without counts. */
  class Index<N(==)> {
    var numbers: map<N, nat>
    var names: seq<N>

    ghost predicate Valid()
      reads this
    {
      Dense(numbers, names)
    }

    constructor ()
      ensures Valid() && names == []
    {
      numbers, names := map[], [];
    }

    method Add(name: N)
      requires Valid()
      modifies this
      ensures Valid() && names == WithName(old(names), name)
    {
      if name !in numbers {
        numbers := numbers[name := |names|];
        names := names + [name];
      }
    }

    function ToNumber(name: N): (y: int)
      requires Valid()
      reads this
      ensures y == NOT_ID <==> name !in names
      ensures name in names ==> 0 <= y < |names| && names[y] == name
    {
      if name in numbers then numbers[name] else NOT_ID
    }
  }

  /** Names after one more is added: a name that is there already changes nothing. */
  function WithName<N(==)>(names: seq<N>, name: N): seq<N> {
    if name in names then names else names + [name]
  }

  /** Names after adding more of them one by one: repetitions are dropped. */
  function AddAll<N(==)>(names: seq<N>, more: seq<N>): seq<N>
    decreases |more|
  {
    if more == [] then names else AddAll(WithName(names, more[0]), more[1..])
  }
}
