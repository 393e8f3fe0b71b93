/** Cutting an object tree at server boundaries loses no device. */
module Distribution {
  import Common

  /** A device reference of an attribute: the device's name and its open string. */
  datatype DevRef = DevRef(device: string, openString: string)

  /** An object as one attribute sees it: its own device references (findObjDevs), the
      children it takes values from (findAttrChildren), and whether it has a server. */
  datatype Obj = Obj(name: string, server: bool, devs: seq<DevRef>, kids: seq<Obj>)

  // --------------------------------------------------------------- the plan

  predicate Cut(root: string, o: Obj) { o.server && o.name != root }

  ghost function Local(agg: bool, root: string, o: Obj): seq<DevRef>
    decreases o
  {
    if Cut(root, o) then [] else o.devs + if agg then LocalAll(agg, root, o.kids) else []
  }

  ghost function LocalAll(agg: bool, root: string, kids: seq<Obj>): seq<DevRef>
    decreases kids
  {
    if kids == [] then [] else LocalAll(agg, root, kids[..|kids| - 1]) + Local(agg, root, kids[|kids| - 1])
  }

  /** The objects at which the tree is cut. */
  ghost function Cuts(agg: bool, root: string, o: Obj): seq<Obj>
    decreases o
  {
    if Cut(root, o) then [o] else if agg then CutsAll(agg, root, o.kids) else []
  }

  ghost function CutsAll(agg: bool, root: string, kids: seq<Obj>): seq<Obj>
    decreases kids
  {
    if kids == [] then [] else CutsAll(agg, root, kids[..|kids| - 1]) + Cuts(agg, root, kids[|kids| - 1])
  }

  ghost function NamesOf(s: seq<Obj>): set<string> { set x | x in s :: x.name }

  lemma NextKid(agg: bool, root: string, kids: seq<Obj>, j: nat, devs: seq<DevRef>)
    requires j < |kids|
    ensures devs + LocalAll(agg, root, kids[..j + 1]) == (devs + LocalAll(agg, root, kids[..j])) + Local(agg, root, kids[j])
    ensures NamesOf(CutsAll(agg, root, kids[..j + 1])) == NamesOf(CutsAll(agg, root, kids[..j])) + NamesOf(Cuts(agg, root, kids[j]))
  {
    hide Local, Cuts;
    assert kids[..j + 1][..j] == kids[..j];
  }

  // ------------------------------------------------------ what the cut means

  /** A way down the tree, along the children taken values from. */
  ghost predicate IsPath(agg: bool, o: Obj, p: seq<Obj>) {
    && |p| > 0 && p[0] == o && (|p| > 1 ==> agg)
    && forall i :: 0 <= i < |p| - 1 ==> p[i + 1] in p[i].kids
  }

  /** A way on which only the last object belongs to another server. */
  ghost predicate EndsAtServer(root: string, p: seq<Obj>) {
    && |p| > 0 && p[|p| - 1].server && p[|p| - 1].name != root
    && forall i :: 0 <= i < |p| - 1 ==> p[i].server ==> p[i].name == root
  }

  /** A way on which no object does. */
  ghost predicate StaysHere(root: string, p: seq<Obj>) { forall x :: x in p && x.server ==> x.name == root }

  /** The tree is cut at the first object of another server on each way down. */
  lemma CutsAreFirst(agg: bool, root: string, o: Obj, x: Obj)
    ensures x in Cuts(agg, root, o) <==> exists p: seq<Obj> :: IsPath(agg, o, p) && EndsAtServer(root, p) && p[|p| - 1] == x
  {
    if x in Cuts(agg, root, o) { var p := PathToCut(agg, root, o, x); }
    if p: seq<Obj> :| IsPath(agg, o, p) && EndsAtServer(root, p) && p[|p| - 1] == x { CutOnPath(agg, root, o, p); }
  }

  lemma {:induction false} PathToCut(agg: bool, root: string, o: Obj, x: Obj) returns (p: seq<Obj>)
    requires x in Cuts(agg, root, o)
    ensures IsPath(agg, o, p) && EndsAtServer(root, p) && p[|p| - 1] == x
    decreases o
  {
    if Cut(root, o) { return [o]; }
    var k := KidWithCut(agg, root, o.kids, x);
    p := PathToCut(agg, root, k, x);
    p := [o] + p;
  }

  lemma {:induction false} KidWithCut(agg: bool, root: string, kids: seq<Obj>, x: Obj) returns (k: Obj)
    requires x in CutsAll(agg, root, kids)
    ensures k in kids && x in Cuts(agg, root, k)
  {
    var front, last := kids[..|kids| - 1], kids[|kids| - 1];
    if x in Cuts(agg, root, last) { return last; }
    k := KidWithCut(agg, root, front, x);
  }

  lemma {:induction false} CutOfKid(agg: bool, root: string, kids: seq<Obj>, k: Obj)
    requires k in kids
    ensures forall x :: x in Cuts(agg, root, k) ==> x in CutsAll(agg, root, kids)
    ensures forall d :: d in Local(agg, root, k) ==> d in LocalAll(agg, root, kids)
  {
    if k != kids[|kids| - 1] { CutOfKid(agg, root, kids[..|kids| - 1], k); }
  }

  lemma {:induction false} CutOnPath(agg: bool, root: string, o: Obj, p: seq<Obj>)
    requires IsPath(agg, o, p) && EndsAtServer(root, p)
    ensures p[|p| - 1] in Cuts(agg, root, o)
    decreases |p|
  {
    if |p| > 1 {
      CutOnPath(agg, root, p[1], p[1..]);
      CutOfKid(agg, root, o.kids, p[1]);
    }
  }

  /** The devices read here are those on the ways before any cut. */
  lemma LocalIsHere(agg: bool, root: string, o: Obj, d: DevRef)
    ensures d in Local(agg, root, o) <==> exists p: seq<Obj> :: IsPath(agg, o, p) && StaysHere(root, p) && d in p[|p| - 1].devs
  {
    if d in Local(agg, root, o) { var p := PathToLocal(agg, root, o, d); }
    if p: seq<Obj> :| IsPath(agg, o, p) && StaysHere(root, p) && d in p[|p| - 1].devs { LocalOnPath(agg, root, o, p, d); }
  }

  lemma {:induction false} PathToLocal(agg: bool, root: string, o: Obj, d: DevRef) returns (p: seq<Obj>)
    requires d in Local(agg, root, o)
    ensures IsPath(agg, o, p) && StaysHere(root, p) && d in p[|p| - 1].devs
    decreases o
  {
    if d in o.devs { return [o]; }
    var k := KidWithLocal(agg, root, o.kids, d);
    p := PathToLocal(agg, root, k, d);
    p := [o] + p;
  }

  lemma {:induction false} KidWithLocal(agg: bool, root: string, kids: seq<Obj>, d: DevRef) returns (k: Obj)
    requires d in LocalAll(agg, root, kids)
    ensures k in kids && d in Local(agg, root, k)
  {
    var front, last := kids[..|kids| - 1], kids[|kids| - 1];
    if d in Local(agg, root, last) { return last; }
    k := KidWithLocal(agg, root, front, d);
  }

  lemma {:induction false} LocalOnPath(agg: bool, root: string, o: Obj, p: seq<Obj>, d: DevRef)
    requires IsPath(agg, o, p) && StaysHere(root, p) && d in p[|p| - 1].devs
    ensures d in Local(agg, root, o)
    decreases |p|
  {
    assert p[0] in p;
    if |p| > 1 {
      LocalOnPath(agg, root, p[1], p[1..], d);
      CutOfKid(agg, root, o.kids, p[1]);
    }
  }

  // ---------------------------------------------------- the code, in place

  class Device {
    const ref: DevRef

    constructor (ref: DevRef)
      ensures this.ref == ref
    {
      this.ref := ref;
    }
  }

  function Refs(devices: seq<Device>): (s: seq<DevRef>)
    ensures |s| == |devices| && forall i :: 0 <= i < |s| ==> s[i] == devices[i].ref
  {
    seq(|devices|, i requires 0 <= i < |devices| => devices[i].ref)
  }

  class DistCntxt {
    const rootName: string
    /** m_deviceMap: one Device for each reference. */
    var deviceMap: map<DevRef, Device>

    ghost predicate Valid()
      reads this
    {
      forall r :: r in deviceMap ==> deviceMap[r].ref == r
    }

    /** All these devices are the ones of the map: equal references share a Device. */
    ghost predicate Opened(devices: seq<Device>)
      reads this
    {
      forall d :: d in devices ==> d.ref in deviceMap && deviceMap[d.ref] == d
    }

    constructor (rootName: string)
      ensures Valid() && deviceMap == map[] && this.rootName == rootName
    {
      this.rootName := rootName;
      deviceMap := map[];
    }

    /** The devices of one object. */
    method OpenDevices(devs: seq<DevRef>, local: seq<Device>) returns (out: seq<Device>)
      requires Valid() && Opened(local)
      modifies this
      ensures Valid() && Opened(out) && Refs(out) == Refs(local) + devs
      ensures forall r :: r in old(deviceMap) ==> r in deviceMap && deviceMap[r] == old(deviceMap)[r]
    {
      out := local;
      var i := 0;
      while i < |devs|
        invariant 0 <= i <= |devs| && Valid() && Opened(out) && Refs(out) == Refs(local) + devs[..i]
        invariant forall r :: r in old(deviceMap) ==> r in deviceMap && deviceMap[r] == old(deviceMap)[r]
      {
        if devs[i] !in deviceMap {
          var d := new Device(devs[i]);
          deviceMap := deviceMap[devs[i] := d];
        }
        out := out + [deviceMap[devs[i]]];
        i := i + 1;
      }
    }

    /** DistCntxt::traverse. */
    method Traverse(agg: bool, o: Obj, local: seq<Device>, remote: set<string>) returns (out: seq<Device>, names: set<string>)
      requires Valid() && Opened(local)
      modifies this
      ensures Valid() && Opened(out)
      ensures Refs(out) == Refs(local) + Local(agg, rootName, o)
      ensures names == remote + NamesOf(Cuts(agg, rootName, o))
      ensures forall r :: r in old(deviceMap) ==> r in deviceMap && deviceMap[r] == old(deviceMap)[r]
      decreases o
    {
      if o.server && o.name != rootName {
        assert NamesOf([o]) == {o.name};
        return local, remote + {o.name};
      }
      out := OpenDevices(o.devs, local);
      names := remote;
      if agg {
        var j := 0;
        while j < |o.kids|
          invariant 0 <= j <= |o.kids| && Valid() && Opened(out)
          invariant Refs(out) == Refs(local) + (o.devs + LocalAll(agg, rootName, o.kids[..j]))
          invariant names == remote + NamesOf(CutsAll(agg, rootName, o.kids[..j]))
          invariant forall r :: r in old(deviceMap) ==> r in deviceMap && deviceMap[r] == old(deviceMap)[r]
        {
          out, names := Traverse(agg, o.kids[j], out, names);
          NextKid(agg, rootName, o.kids, j, o.devs);
          Common.Assoc(Refs(local), o.devs + LocalAll(agg, rootName, o.kids[..j]), Local(agg, rootName, o.kids[j]));
          j := j + 1;
        }
        assert o.kids[..j] == o.kids;
      }
    }
  }

  // ------------------------------------------------------------- reading it

  /** What a device answers when it is read. */
  datatype Reading = Reading(code: int, value: real)

  function Values(read: DevRef -> Reading, devs: seq<DevRef>): (s: seq<real>)
    ensures |s| == |devs| && forall i :: 0 <= i < |s| ==> s[i] == read(devs[i]).value
  {
    seq(|devs|, i requires 0 <= i < |devs| => read(devs[i]).value)
  }

  /** The sum of the values of these devices. */
  function SumDevs(read: DevRef -> Reading, devs: seq<DevRef>): real { Common.Sum(Values(read, devs)) }

  /** sumOp: the sum, which for one value is itself, and for a list the sum of the sums of
      its parts. */
  method SumOp(values: seq<real>) returns (sum: real)
    ensures sum == Common.Sum(values)
    ensures |values| == 1 ==> sum == values[0]
    ensures forall k :: 0 <= k <= |values| ==> sum == Common.Sum(values[..k]) + Common.Sum(values[k..])
  {
    sum := 0.0;
    var i := 0;
    while i < |values|
      invariant 0 <= i <= |values| && sum == Common.Sum(values[..i])
    {
      sum := sum + values[i];
      assert values[..i + 1][..i] == values[..i];
      i := i + 1;
    }
    assert values[..i] == values;
    if |values| == 1 { Common.SumLaws(values[0], [], []); assert values == [values[0]]; }
    forall k | 0 <= k <= |values| ensures sum == Common.Sum(values[..k]) + Common.Sum(values[k..]) {
      Common.SumJoin(values[..k], values[k..]);
      assert values[..k] + values[k..] == values;
    }
  }

  /** Some device of the list fails when it is read. */
  ghost predicate Fails(read: DevRef -> Reading, devs: seq<DevRef>) { exists d :: d in devs && read(d).code != 0 }

  /** The code of the first device that fails, or 0. */
  function FirstFailure(read: DevRef -> Reading, devs: seq<DevRef>): (code: int)
    ensures code == 0 <==> !Fails(read, devs)
    ensures code == 0 <==> forall d :: d in devs ==> read(d).code == 0
    ensures code != 0 ==> exists k :: 0 <= k < |devs| && read(devs[k]).code == code && forall j :: 0 <= j < k ==> read(devs[j]).code == 0
  {
    if devs == [] then 0 else if read(devs[0]).code != 0 then read(devs[0]).code else FirstFailure(read, devs[1..])
  }

  /** What is left in the caller's buffer, which begins as 0: the sum, or the 0 when one of
      the devices fails. */
  ghost function Value(read: DevRef -> Reading, devs: seq<DevRef>): real {
    if Fails(read, devs) then 0.0 else SumDevs(read, devs)
  }

  /** Object::attrGetValues with attrGetValuesDevice for one attribute: the code of the first
      device that fails, and the buffer. */
  method ReadDevices(read: DevRef -> Reading, devs: seq<DevRef>) returns (code: int, value: real)
    ensures code == FirstFailure(read, devs) && value == Value(read, devs)
    ensures value == if forall d :: d in devs ==> read(d).code == 0 then Common.Sum(Values(read, devs)) else 0.0
  {
    hide FirstFailure, Value, Common.Sum;
    value := 0.0;
    var values: seq<real> := [];
    var i := 0;
    while i < |devs|
      invariant 0 <= i <= |devs| == |values| + (|devs| - i)
      invariant forall j :: 0 <= j < i ==> read(devs[j]).code == 0 && values[j] == read(devs[j]).value
    {
      if read(devs[i]).code != 0 {
        FailsAt(read, devs, i);
        return read(devs[i]).code, value;
      }
      values := values + [read(devs[i]).value];
      i := i + 1;
    }
    AllWork(read, devs);
    if |devs| > 0 { value := SumOp(values); }
    assert values == Values(read, devs);
    return 0, value;
  }

  lemma FailsAt(read: DevRef -> Reading, devs: seq<DevRef>, i: nat)
    requires i < |devs| && read(devs[i]).code != 0 && forall j :: 0 <= j < i ==> read(devs[j]).code == 0
    ensures FirstFailure(read, devs) == read(devs[i]).code && Value(read, devs) == 0.0 && devs[i] in devs
  {
    hide FirstFailure;
    assert devs[i] in devs;
    var code := FirstFailure(read, devs);
    var k :| 0 <= k < |devs| && read(devs[k]).code == code && forall j :: 0 <= j < k ==> read(devs[j]).code == 0;
    assert k == i;
  }

  lemma AllWork(read: DevRef -> Reading, devs: seq<DevRef>)
    requires forall j :: 0 <= j < |devs| ==> read(devs[j]).code == 0
    ensures FirstFailure(read, devs) == 0 && Value(read, devs) == Common.Sum(Values(read, devs)) && (devs == [] ==> Value(read, devs) == 0.0)
  {
    hide FirstFailure;
  }

  /** Every device reference of the object's tree. */
  ghost function TreeDevs(agg: bool, o: Obj): seq<DevRef>
    decreases o
  {
    o.devs + if agg then ForestDevs(agg, o.kids) else []
  }

  ghost function ForestDevs(agg: bool, kids: seq<Obj>): seq<DevRef>
    decreases kids
  {
    if kids == [] then [] else ForestDevs(agg, kids[..|kids| - 1]) + TreeDevs(agg, kids[|kids| - 1])
  }

  /** The sum over every device reference of the object's tree. */
  ghost function PlainSum(agg: bool, read: DevRef -> Reading, o: Obj): real { Common.Sum(Values(read, TreeDevs(agg, o))) }

  ghost function PlainAll(agg: bool, read: DevRef -> Reading, kids: seq<Obj>): real { Common.Sum(Values(read, ForestDevs(agg, kids))) }

  /** What the router adds up for a set of names, in the order std::set gives them. */
  ghost function SumSet(ans: string -> real, s: set<string>): real {
    if s == {} then 0.0 else var x :| x in s; ans(x) + SumSet(ans, s - {x})
  }

  function SumNames(ans: string -> real, s: seq<Obj>): real {
    if s == [] then 0.0 else SumNames(ans, s[..|s| - 1]) + ans(s[|s| - 1].name)
  }

  /** What a context with this root reads for object o, when the servers answer ans: the
      local devices are read first, and a response, if names are remote, is then stored
      over that value. */
  ghost function Response(agg: bool, root: string, read: DevRef -> Reading, ans: string -> real, o: Obj): real {
    var names := NamesOf(Cuts(agg, root, o));
    if names != {} then SumSet(ans, names) else Value(read, Local(agg, root, o))
  }

  // ---------------------------------------------------------- trees by names

  ghost function Nodes(agg: bool, o: Obj): (s: seq<Obj>)
    ensures |s| > 0
    decreases o
  {
    [o] + if agg then NodesAll(agg, o.kids) else []
  }

  ghost function NodesAll(agg: bool, kids: seq<Obj>): seq<Obj>
    decreases kids
  {
    if kids == [] then [] else NodesAll(agg, kids[..|kids| - 1]) + Nodes(agg, kids[|kids| - 1])
  }

  ghost predicate Distinct(s: seq<Obj>) { forall i, j :: 0 <= i < j < |s| ==> s[i].name != s[j].name }

  lemma DistinctParts(a: seq<Obj>, b: seq<Obj>)
    requires Distinct(a + b)
    ensures Distinct(a) && Distinct(b) && forall x, y :: x in a && y in b ==> x.name != y.name
  {
    assert forall i :: 0 <= i < |a| ==> (a + b)[i] == a[i];
    assert forall i :: 0 <= i < |b| ==> (a + b)[|a| + i] == b[i];
  }

  lemma {:induction false} CutsAreNodes(agg: bool, root: string, o: Obj)
    ensures forall x :: x in Cuts(agg, root, o) ==> x in Nodes(agg, o) && Cut(root, x)
    ensures Distinct(Nodes(agg, o)) ==> Distinct(Cuts(agg, root, o))
    decreases o
  {
    if !Cut(root, o) && agg {
      CutsAllAreNodes(agg, root, o.kids);
      if Distinct(Nodes(agg, o)) { DistinctParts([o], NodesAll(agg, o.kids)); }
    }
  }

  lemma {:induction false} CutsAllAreNodes(agg: bool, root: string, kids: seq<Obj>)
    ensures forall x :: x in CutsAll(agg, root, kids) ==> x in NodesAll(agg, kids) && Cut(root, x)
    ensures Distinct(NodesAll(agg, kids)) ==> Distinct(CutsAll(agg, root, kids))
    decreases kids
  {
    if kids != [] {
      var front, last := kids[..|kids| - 1], kids[|kids| - 1];
      CutsAllAreNodes(agg, root, front);
      CutsAreNodes(agg, root, last);
      if Distinct(NodesAll(agg, kids)) {
        DistinctParts(NodesAll(agg, front), Nodes(agg, last));
        DistinctJoin(CutsAll(agg, root, front), Cuts(agg, root, last));
      }
    }
  }

  lemma DistinctJoin(a: seq<Obj>, b: seq<Obj>)
    requires Distinct(a) && Distinct(b) && forall x, y :: x in a && y in b ==> x.name != y.name
    ensures Distinct(a + b)
  {
    forall i, j | 0 <= i < j < |a + b| ensures (a + b)[i].name != (a + b)[j].name {
      if i < |a| <= j { assert a[i] in a && b[j - |a|] in b; }
    }
  }

  /** A node's own tree is part of the tree it is in. */
  lemma {:induction false} SubTree(agg: bool, o: Obj, x: Obj)
    requires x in Nodes(agg, o)
    ensures |Nodes(agg, x)| <= |Nodes(agg, o)| && forall y :: y in Nodes(agg, x) ==> y in Nodes(agg, o)
    ensures Distinct(Nodes(agg, o)) ==> Distinct(Nodes(agg, x))
    decreases o
  {
    if x != o {
      SubForest(agg, o.kids, x);
      if Distinct(Nodes(agg, o)) { DistinctParts([o], NodesAll(agg, o.kids)); }
    }
  }

  lemma {:induction false} SubForest(agg: bool, kids: seq<Obj>, x: Obj)
    requires x in NodesAll(agg, kids)
    ensures |Nodes(agg, x)| <= |NodesAll(agg, kids)| && forall y :: y in Nodes(agg, x) ==> y in NodesAll(agg, kids)
    ensures Distinct(NodesAll(agg, kids)) ==> Distinct(Nodes(agg, x))
    decreases kids
  {
    var front, last := kids[..|kids| - 1], kids[|kids| - 1];
    if x in NodesAll(agg, front) { SubForest(agg, front, x); } else { SubTree(agg, last, x); }
    if Distinct(NodesAll(agg, kids)) { DistinctParts(NodesAll(agg, front), Nodes(agg, last)); }
  }

  lemma CutIsSmaller(agg: bool, root: string, o: Obj, x: Obj)
    requires x in Cuts(agg, root, o)
    ensures x in Nodes(agg, o) && x.server
    ensures if Cut(root, o) then x == o else |Nodes(agg, x)| < |Nodes(agg, o)|
  {
    CutsAreNodes(agg, root, o);
    if !Cut(root, o) {
      CutsAllAreNodes(agg, root, o.kids);
      SubForest(agg, o.kids, x);
    }
  }

  // ---------------------------------------------------------- the lists read

  /** The device lists that are read on the way to a value of o: the reading context's own,
      and those of the servers asked, each a list that fails as a whole. */
  ghost function Lists(agg: bool, root: string, o: Obj): seq<seq<DevRef>>
    decreases |Nodes(agg, o)|, if Cut(root, o) then 4 else 1, 0
  {
    [Local(agg, root, o)] + RemoteLists(agg, root, o)
  }

  ghost function RemoteLists(agg: bool, root: string, o: Obj): seq<seq<DevRef>>
    decreases |Nodes(agg, o)|, if Cut(root, o) then 3 else 0, 0
  {
    var size := if Cut(root, o) then |Nodes(agg, o)| else |Nodes(agg, o)| - 1;
    CutsAreSmaller(agg, root, o);
    ListsAll(agg, Cuts(agg, root, o), size)
  }

  ghost function ListsAll(agg: bool, s: seq<Obj>, size: nat): seq<seq<DevRef>>
    requires forall x :: x in s ==> |Nodes(agg, x)| <= size
    decreases size, 2, |s|
  {
    if s == [] then [] else
      var last := s[|s| - 1];
      ListsAll(agg, s[..|s| - 1], size) + Lists(agg, last.name, last)
  }

  lemma CutsAreSmaller(agg: bool, root: string, o: Obj)
    ensures forall x :: x in Cuts(agg, root, o) ==> |Nodes(agg, x)| <= if Cut(root, o) then |Nodes(agg, o)| else |Nodes(agg, o)| - 1
  {
    forall x | x in Cuts(agg, root, o) ensures |Nodes(agg, x)| <= if Cut(root, o) then |Nodes(agg, o)| else |Nodes(agg, o)| - 1 {
      CutIsSmaller(agg, root, o, x);
    }
  }

  /** What the lists leave in their buffers, all together. */
  ghost function ValueAll(read: DevRef -> Reading, ls: seq<seq<DevRef>>): real {
    if ls == [] then 0.0 else ValueAll(read, ls[..|ls| - 1]) + Value(read, ls[|ls| - 1])
  }

  /** The values of all devices of the lists. */
  ghost function SumAll(read: DevRef -> Reading, ls: seq<seq<DevRef>>): real {
    if ls == [] then 0.0 else SumAll(read, ls[..|ls| - 1]) + SumDevs(read, ls[|ls| - 1])
  }

  /** The values of the devices in lists that fail. */
  ghost function LostAll(read: DevRef -> Reading, ls: seq<seq<DevRef>>): real {
    if ls == [] then 0.0 else LostAll(read, ls[..|ls| - 1]) + if Fails(read, ls[|ls| - 1]) then SumDevs(read, ls[|ls| - 1]) else 0.0
  }

  lemma {:induction false} LostIsMissing(read: DevRef -> Reading, ls: seq<seq<DevRef>>)
    ensures SumAll(read, ls) == ValueAll(read, ls) + LostAll(read, ls)
    ensures (forall l :: l in ls ==> !Fails(read, l)) ==> LostAll(read, ls) == 0.0
  {
    if ls != [] { LostIsMissing(read, ls[..|ls| - 1]); }
  }

  lemma {:induction false} ListsConcat(read: DevRef -> Reading, a: seq<seq<DevRef>>, b: seq<seq<DevRef>>)
    ensures ValueAll(read, a + b) == ValueAll(read, a) + ValueAll(read, b)
    ensures SumAll(read, a + b) == SumAll(read, a) + SumAll(read, b)
  {
    if b == [] {
      assert a + b == a;
    } else {
      assert (a + b)[..|a + b| - 1] == a + b[..|b| - 1];
      ListsConcat(read, a, b[..|b| - 1]);
    }
  }

  lemma OneList(read: DevRef -> Reading, l: seq<DevRef>, ls: seq<seq<DevRef>>)
    ensures ValueAll(read, [l] + ls) == Value(read, l) + ValueAll(read, ls)
    ensures SumAll(read, [l] + ls) == SumDevs(read, l) + SumAll(read, ls)
  {
    ListsConcat(read, [l], ls);
    assert [l][..0] == [];
  }

  lemma ListsValue(agg: bool, root: string, read: DevRef -> Reading, o: Obj)
    ensures ValueAll(read, Lists(agg, root, o)) == Value(read, Local(agg, root, o)) + ValueAll(read, RemoteLists(agg, root, o))
  {
    hide ValueAll, Value, RemoteLists;
    OneList(read, Local(agg, root, o), RemoteLists(agg, root, o));
  }

  // ------------------------------------------------------ meaning is preserved

  lemma SumDevsConcat(read: DevRef -> Reading, a: seq<DevRef>, b: seq<DevRef>)
    ensures SumDevs(read, a + b) == SumDevs(read, a) + SumDevs(read, b)
  {
    Common.SumJoin(Values(read, a), Values(read, b));
    assert Values(read, a + b) == Values(read, a) + Values(read, b);
  }

  lemma SumOneDev(read: DevRef -> Reading, d: DevRef)
    ensures SumDevs(read, [d]) == read(d).value && SumDevs(read, []) == 0.0
  {
    Common.SumLaws(read(d).value, [], []);
    assert Values(read, [d]) == [read(d).value];
  }

  lemma PlainParts(agg: bool, read: DevRef -> Reading, o: Obj)
    ensures PlainSum(agg, read, o) == SumDevs(read, o.devs) + if agg then PlainAll(agg, read, o.kids) else 0.0
  {
    if agg { SumDevsConcat(read, o.devs, ForestDevs(agg, o.kids)); } else { assert o.devs + [] == o.devs; }
  }

  lemma PlainAllParts(agg: bool, read: DevRef -> Reading, kids: seq<Obj>)
    ensures PlainAll(agg, read, kids) ==
            if kids == [] then 0.0 else PlainAll(agg, read, kids[..|kids| - 1]) + PlainSum(agg, read, kids[|kids| - 1])
  {
    if kids != [] { SumDevsConcat(read, ForestDevs(agg, kids[..|kids| - 1]), TreeDevs(agg, kids[|kids| - 1])); }
  }

  lemma {:induction false} PlainConcat(agg: bool, read: DevRef -> Reading, a: seq<Obj>, b: seq<Obj>)
    ensures PlainAll(agg, read, a + b) == PlainAll(agg, read, a) + PlainAll(agg, read, b)
  {
    hide PlainAll, PlainSum;
    PlainAllParts(agg, read, b);
    if b == [] {
      assert a + b == a;
    } else {
      assert (a + b)[..|a + b| - 1] == a + b[..|b| - 1];
      PlainAllParts(agg, read, a + b);
      PlainConcat(agg, read, a, b[..|b| - 1]);
    }
  }

  /** Cutting loses and doubles nothing: every device reference of the tree is local or in
      exactly one of the subtrees cut off. */
  lemma {:induction false} CutConserves(agg: bool, root: string, read: DevRef -> Reading, o: Obj)
    ensures PlainSum(agg, read, o) == SumDevs(read, Local(agg, root, o)) + PlainAll(agg, read, Cuts(agg, root, o))
    decreases o
  {
    hide PlainAll, PlainSum, SumDevs;
    PlainParts(agg, read, o);
    PlainAllParts(agg, read, []);
    PlainAllParts(agg, read, [o]);
    SumOneDev(read, DevRef("", ""));
    if Cut(root, o) {
      assert [o][..0] == [];
    } else if agg {
      CutAllConserves(agg, root, read, o.kids);
      SumDevsConcat(read, o.devs, LocalAll(agg, root, o.kids));
    } else {
      assert o.devs + [] == o.devs;
    }
  }

  lemma {:induction false} CutAllConserves(agg: bool, root: string, read: DevRef -> Reading, kids: seq<Obj>)
    ensures PlainAll(agg, read, kids) == SumDevs(read, LocalAll(agg, root, kids)) + PlainAll(agg, read, CutsAll(agg, root, kids))
    decreases kids
  {
    hide PlainAll, PlainSum, SumDevs;
    PlainAllParts(agg, read, kids);
    if kids == [] {
      SumOneDev(read, DevRef("", ""));
    } else {
      var front, last := kids[..|kids| - 1], kids[|kids| - 1];
      CutAllConserves(agg, root, read, front);
      CutConserves(agg, root, read, last);
      SumDevsConcat(read, LocalAll(agg, root, front), Local(agg, root, last));
      PlainConcat(agg, read, CutsAll(agg, root, front), Cuts(agg, root, last));
    }
  }

  lemma {:induction false} SumSetWithout(ans: string -> real, s: set<string>, x: string)
    requires x in s
    ensures SumSet(ans, s) == ans(x) + SumSet(ans, s - {x})
  {
    var y :| y in s && SumSet(ans, s) == ans(y) + SumSet(ans, s - {y});
    if x != y {
      SumSetWithout(ans, s - {y}, x);
      SumSetWithout(ans, s - {x}, y);
      assert s - {x} - {y} == s - {y} - {x};
    }
  }

  /** Over objects of distinct names, a set of their names sums as their list. */
  lemma {:induction false} SumSetList(ans: string -> real, s: seq<Obj>)
    requires Distinct(s)
    ensures SumSet(ans, NamesOf(s)) == SumNames(ans, s)
  {
    if s != [] {
      var front, last := s[..|s| - 1], s[|s| - 1];
      assert s == front + [last];
      assert last.name in NamesOf(s);
      assert NamesOf(s) - {last.name} == NamesOf(front);
      SumSetWithout(ans, NamesOf(s), last.name);
      SumSetList(ans, front);
    }
  }

  /** Every server answers what its own context reads. */
  ghost predicate Consistent(agg: bool, read: DevRef -> Reading, ans: string -> real, cfg: Obj) {
    forall x :: x in Nodes(agg, cfg) && x.server ==> ans(x.name) == Response(agg, x.name, read, ans, x)
  }

  /** DistObject's assertion: an attribute has devices or a communicator, not both. */
  ghost predicate Unmixed(agg: bool, root: string, o: Obj) { Cuts(agg, root, o) == [] || Local(agg, root, o) == [] }

  ghost predicate ServersUnmixed(agg: bool, cfg: Obj) {
    forall x :: x in Nodes(agg, cfg) && x.server ==> Unmixed(agg, x.name, x)
  }

  /** Every device reference of the tree is in one of the lists that are read. */
  lemma {:induction false} ListsArePlain(agg: bool, root: string, read: DevRef -> Reading, o: Obj)
    ensures SumAll(read, RemoteLists(agg, root, o)) == PlainAll(agg, read, Cuts(agg, root, o))
    ensures SumAll(read, Lists(agg, root, o)) == PlainSum(agg, read, o)
    decreases |Nodes(agg, o)|, if Cut(root, o) then 4 else 1, 0
  {
    CutConserves(agg, root, read, o);
    CutsAreSmaller(agg, root, o);
    OneList(read, Local(agg, root, o), RemoteLists(agg, root, o));
    AllArePlain(agg, read, Cuts(agg, root, o), if Cut(root, o) then |Nodes(agg, o)| else |Nodes(agg, o)| - 1);
  }

  lemma {:induction false} AllArePlain(agg: bool, read: DevRef -> Reading, s: seq<Obj>, size: nat)
    requires forall x :: x in s ==> |Nodes(agg, x)| <= size
    ensures SumAll(read, ListsAll(agg, s, size)) == PlainAll(agg, read, s)
    decreases size, 1, |s|
  {
    if s != [] {
      var front, last := s[..|s| - 1], s[|s| - 1];
      AllArePlain(agg, read, front, size);
      ListsArePlain(agg, last.name, read, last);
      PlainAllParts(agg, read, s);
      ListsConcat(read, ListsAll(agg, front, size), Lists(agg, last.name, last));
    }
  }

  /** Reading any object from any context gives what all the lists read leave in their
      buffers, however the servers cut the tree: a list with a device that fails gives 0. */
  lemma {:induction false} ResponseIsValue(agg: bool, cfg: Obj, root: string, read: DevRef -> Reading, ans: string -> real, o: Obj)
    requires Distinct(Nodes(agg, cfg)) && o in Nodes(agg, cfg)
    requires Consistent(agg, read, ans, cfg) && ServersUnmixed(agg, cfg) && Unmixed(agg, root, o)
    ensures Response(agg, root, read, ans, o) == ValueAll(read, Lists(agg, root, o))
    decreases |Nodes(agg, o)|, if Cut(root, o) then 4 else 1, 1
  {
    RemoteIsValue(agg, cfg, root, read, ans, o);
    OneList(read, Local(agg, root, o), RemoteLists(agg, root, o));
    NamesAreCuts(agg, root, o);
  }

  lemma NamesAreCuts(agg: bool, root: string, o: Obj)
    ensures NamesOf(Cuts(agg, root, o)) == {} <==> Cuts(agg, root, o) == []
  {
    assert Cuts(agg, root, o) != [] ==> Cuts(agg, root, o)[0].name in NamesOf(Cuts(agg, root, o));
  }

  /** The remote part alone: what the servers answer for the names cut off is what their
      lists leave. */
  lemma {:induction false} RemoteIsValue(agg: bool, cfg: Obj, root: string, read: DevRef -> Reading, ans: string -> real, o: Obj)
    requires Distinct(Nodes(agg, cfg)) && o in Nodes(agg, cfg)
    requires Consistent(agg, read, ans, cfg) && ServersUnmixed(agg, cfg)
    ensures SumSet(ans, NamesOf(Cuts(agg, root, o))) == ValueAll(read, RemoteLists(agg, root, o))
    decreases |Nodes(agg, o)|, if Cut(root, o) then 4 else 1, 0
  {
    hide Nodes, Cuts, Lists, Response, Value, ValueAll, Unmixed;
    var s := Cuts(agg, root, o);
    SubTree(agg, cfg, o);
    CutsAreNodes(agg, root, o);
    SumSetList(ans, s);
    forall x | x in s ensures ans(x.name) == ValueAll(read, Lists(agg, x.name, x)) {
      CutIsSmaller(agg, root, o, x);
      SubTree(agg, cfg, x);
      ResponseIsValue(agg, cfg, x.name, read, ans, x);
    }
    CutsAreSmaller(agg, root, o);
    NamesAreValues(agg, read, ans, s, if Cut(root, o) then |Nodes(agg, o)| else |Nodes(agg, o)| - 1);
  }

  lemma {:induction false} NamesAreValues(agg: bool, read: DevRef -> Reading, ans: string -> real, s: seq<Obj>, size: nat)
    requires forall x :: x in s ==> |Nodes(agg, x)| <= size && ans(x.name) == ValueAll(read, Lists(agg, x.name, x))
    ensures SumNames(ans, s) == ValueAll(read, ListsAll(agg, s, size))
  {
    if s != [] {
      var front, last := s[..|s| - 1], s[|s| - 1];
      NamesAreValues(agg, read, ans, front, size);
      ListsConcat(read, ListsAll(agg, front, size), Lists(agg, last.name, last));
    }
  }

  /** The result is the sum over all device references of the object's tree, each counted
      once, exactly when the lists that fail hold values that sum to zero. */
  lemma DistributionIsSumIff(agg: bool, cfg: Obj, root: string, read: DevRef -> Reading, ans: string -> real, o: Obj)
    requires Distinct(Nodes(agg, cfg)) && o in Nodes(agg, cfg)
    requires Consistent(agg, read, ans, cfg) && ServersUnmixed(agg, cfg) && Unmixed(agg, root, o)
    ensures Response(agg, root, read, ans, o) == PlainSum(agg, read, o) <==> LostAll(read, Lists(agg, root, o)) == 0.0
  {
    ResponseIsValue(agg, cfg, root, read, ans, o);
    ListsArePlain(agg, root, read, o);
    LostIsMissing(read, Lists(agg, root, o));
  }

  /** So it is that sum whenever no list read on the way fails. */
  lemma DistributionIsSum(agg: bool, cfg: Obj, root: string, read: DevRef -> Reading, ans: string -> real, o: Obj)
    requires Distinct(Nodes(agg, cfg)) && o in Nodes(agg, cfg)
    requires Consistent(agg, read, ans, cfg) && ServersUnmixed(agg, cfg) && Unmixed(agg, root, o)
    requires forall l :: l in Lists(agg, root, o) ==> !Fails(read, l)
    ensures Response(agg, root, read, ans, o) == PlainSum(agg, read, o)
  {
    DistributionIsSumIff(agg, cfg, root, read, ans, o);
    LostIsMissing(read, Lists(agg, root, o));
  }

  /** A reading whose one device fails: 0 is answered where the device's value is 1. */
  lemma FailingExample(ans: string -> real)
    ensures var o, read := Obj("r", true, [DevRef("a", "b")], []), (d: DevRef) => Reading(5, 1.0);
            Distinct(Nodes(true, o)) && ServersUnmixed(true, o) && Unmixed(true, "r", o)
            && (Consistent(true, read, ans, o) <==> ans("r") == 0.0)
            && Response(true, "r", read, ans, o) == 0.0 && PlainSum(true, read, o) == 1.0
  {
    var o, read := Obj("r", true, [DevRef("a", "b")], []), (d: DevRef) => Reading(5, 1.0);
    assert Nodes(true, o) == [o] && Cuts(true, "r", o) == [];
    assert Local(true, "r", o) == [DevRef("a", "b")];
    assert DevRef("a", "b") in Local(true, "r", o);
    NamesAreCuts(true, "r", o);
    SumOneDev(read, DevRef("a", "b"));
    assert o.devs == [DevRef("a", "b")];
    PlainParts(true, read, o);
    PlainAllParts(true, read, []);
  }

  /** Without the assertion at the object read: whenever a name is remote the local devices'
      values are lost too, so the result is right exactly when what is lost sums to zero. */
  lemma MixedIsSumIff(agg: bool, cfg: Obj, root: string, read: DevRef -> Reading, ans: string -> real, o: Obj)
    requires Distinct(Nodes(agg, cfg)) && o in Nodes(agg, cfg)
    requires Consistent(agg, read, ans, cfg) && ServersUnmixed(agg, cfg)
    ensures Response(agg, root, read, ans, o) == PlainSum(agg, read, o)
            <==> (if Cuts(agg, root, o) == [] then Fails(read, Local(agg, root, o)) ==> SumDevs(read, Local(agg, root, o)) == 0.0
                  else SumDevs(read, Local(agg, root, o)) + LostAll(read, RemoteLists(agg, root, o)) == 0.0)
  {
    RemoteIsValue(agg, cfg, root, read, ans, o);
    ListsArePlain(agg, root, read, o);
    OneList(read, Local(agg, root, o), RemoteLists(agg, root, o));
    LostIsMissing(read, RemoteLists(agg, root, o));
    NamesAreCuts(agg, root, o);
  }

  /** The servers' answers are determined: each is what the lists of its own tree leave. */
  lemma ConsistentIff(agg: bool, cfg: Obj, read: DevRef -> Reading, ans: string -> real)
    requires Distinct(Nodes(agg, cfg)) && ServersUnmixed(agg, cfg)
    ensures Consistent(agg, read, ans, cfg) <==>
            forall x :: x in Nodes(agg, cfg) && x.server ==> ans(x.name) == ValueAll(read, Lists(agg, x.name, x))
  {
    if Consistent(agg, read, ans, cfg) {
      forall x | x in Nodes(agg, cfg) && x.server ensures ans(x.name) == ValueAll(read, Lists(agg, x.name, x)) {
        ResponseIsValue(agg, cfg, x.name, read, ans, x);
      }
    }
    if forall x :: x in Nodes(agg, cfg) && x.server ==> ans(x.name) == ValueAll(read, Lists(agg, x.name, x)) {
      forall x | x in Nodes(agg, cfg) && x.server ensures ans(x.name) == Response(agg, x.name, read, ans, x) {
        AnswerIsResponse(agg, cfg, read, ans, x);
      }
    }
  }

  lemma AnswerIsResponse(agg: bool, cfg: Obj, read: DevRef -> Reading, ans: string -> real, x: Obj)
    requires Distinct(Nodes(agg, cfg)) && x in Nodes(agg, cfg) && Unmixed(agg, x.name, x)
    requires forall y :: y in Nodes(agg, cfg) && y.server ==> ans(y.name) == ValueAll(read, Lists(agg, y.name, y))
    ensures Response(agg, x.name, read, ans, x) == ValueAll(read, Lists(agg, x.name, x))
  {
    hide Lists, ValueAll;
    var s := Cuts(agg, x.name, x);
    SubTree(agg, cfg, x);
    CutsAreNodes(agg, x.name, x);
    SumSetList(ans, s);
    CutsAreSmaller(agg, x.name, x);
    NamesAreValues(agg, read, ans, s, if Cut(x.name, x) then |Nodes(agg, x)| else |Nodes(agg, x)| - 1);
    ListsValue(agg, x.name, read, x);
    NamesAreCuts(agg, x.name, x);
  }
}
