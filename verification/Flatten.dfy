/** Writing an object tree as a flat list with dotted names, and finding parents and children
    in such a list again. */
module Flatten {
  import opened Common
  import opened Names

  /** An obj element of the tree: its name, its index, the obj elements below it. */
  datatype Obj = Obj(name: string, index: nat, kids: seq<Obj>)

  /** An obj element of the flat list: its dotted name, and its children's own names. */
  datatype Entry = Entry(name: string, children: seq<string>)

  function Label(o: Obj): string { o.name + Decimal(o.index) }

  /** snprintf into 256 bytes. */
  function Snprintf(s: string): string { if |s| < 256 then s else s[..255] }

  /** The children's own names, as they are written. */
  function Labels(kids: seq<Obj>): (s: seq<string>)
    ensures |s| == |kids| && forall i :: 0 <= i < |s| ==> s[i] == Snprintf(Label(kids[i]))
  {
    seq(|kids|, i requires 0 <= i < |kids| => Snprintf(Label(kids[i])))
  }

  function Dotted(prefix: string, name: string): string { prefix + ['.'] + name }

  /** The full name of an object below the object of this name, cut to the buffer. */
  function NameOf(prefix: string, o: Obj): string { Snprintf(Dotted(prefix, Label(o))) }

  /** What flatten appends for the children of an object with this full name. */
  ghost function Flat(prefix: string, kids: seq<Obj>): seq<Entry>
    decreases kids
  {
    if kids == [] then [] else Flat(prefix, kids[..|kids| - 1]) + Block(prefix, kids[|kids| - 1])
  }

  ghost function Block(prefix: string, o: Obj): seq<Entry>
    decreases o
  {
    [Entry(NameOf(prefix, o), Labels(o.kids))] + Flat(NameOf(prefix, o), o.kids)
  }

  /** flatten: objs grows by the children and all below them, each before its own children;
      the names for the "children" element of the parent are returned with it. */
  method FlattenKids(prefix: string, kids: seq<Obj>, objs: seq<Entry>) returns (out: seq<Entry>, children: seq<string>)
    ensures out == objs + Flat(prefix, kids) && children == Labels(kids)
    decreases kids
  {
    hide Flat, Dotted, Label, Snprintf;
    NoneFlat(prefix);
    out, children := objs, [];
    var i := 0;
    assert kids[..0] == [];
    while i < |kids|
      invariant 0 <= i <= |kids| && out == objs + Flat(prefix, kids[..i]) && children == Labels(kids[..i])
    {
      var name := Snprintf(Label(kids[i]));
      children := children + [name];
      name := Snprintf(Dotted(prefix, Label(kids[i])));
      out := out + [Entry(name, [])];
      var below: seq<Entry>, names: seq<string>;
      below, names := FlattenKids(name, kids[i].kids, []);
      out := out[..|out| - 1] + [Entry(name, names)] + below;
      FlatMore(prefix, kids, i, objs);
      i := i + 1;
    }
    assert kids[..i] == kids;
  }

  lemma NoneFlat(prefix: string)
    ensures Flat(prefix, []) == []
  {}

  lemma FlatMore(prefix: string, kids: seq<Obj>, i: nat, objs: seq<Entry>)
    requires i < |kids|
    ensures var n := NameOf(prefix, kids[i]);
            objs + Flat(prefix, kids[..i + 1]) == objs + Flat(prefix, kids[..i]) + [Entry(n, Labels(kids[i].kids))] + Flat(n, kids[i].kids)
  {
    assert kids[..i + 1][..i] == kids[..i];
  }

  /** All objects, each before those below it. */
  ghost function Preorder(kids: seq<Obj>): seq<Obj>
    decreases kids
  {
    if kids == [] then [] else
      Preorder(kids[..|kids| - 1]) + ([kids[|kids| - 1]] + Preorder(kids[|kids| - 1].kids))
  }

  /** One entry for each object, with its children's names. */
  ghost predicate InStep(es: seq<Entry>, os: seq<Obj>) {
    |es| == |os| && forall i :: 0 <= i < |es| ==> es[i].children == Labels(os[i].kids)
  }

  lemma InStepJoin(es: seq<Entry>, os: seq<Obj>, e: Entry, o: Obj, below: seq<Entry>, under: seq<Obj>)
    requires InStep(es, os) && e.children == Labels(o.kids) && InStep(below, under)
    ensures InStep(es + ([e] + below), os + ([o] + under))
  {
    hide Labels;
  }

  /** The list has one entry for each object, in that order. */
  lemma {:induction false} EntriesInOrder(prefix: string, kids: seq<Obj>)
    ensures InStep(Flat(prefix, kids), Preorder(kids))
    decreases kids
  {
    hide Labels, NameOf, InStep;
    if kids == [] {
      NoneInStep();
    } else {
      var front, last := kids[..|kids| - 1], kids[|kids| - 1];
      var name := NameOf(prefix, last);
      EntriesInOrder(prefix, front);
      EntriesInOrder(name, last.kids);
      InStepJoin(Flat(prefix, front), Preorder(front), Entry(name, Labels(last.kids)), last, Flat(name, last.kids), Preorder(last.kids));
    }
  }

  lemma NoneInStep()
    ensures InStep([], [])
  {}

  /** Two levels, as they are written. */
  lemma FlatExample()
    ensures var cores := [Obj("core", 0, []), Obj("core", 1, [])];
            Flat("plat", [Obj("node", 0, cores)])
            == [Entry("plat.node0", ["core0", "core1"]), Entry("plat.node0.core0", []), Entry("plat.node0.core1", [])]
  {
    hide Flat, Labels, NameOf, Label;
    var a, b := Obj("core", 0, []), Obj("core", 1, []);
    var node := Obj("node", 0, [a, b]);
    LabelExample();
    FlatOne("plat", node);
    CoresExample(a, b);
  }

  lemma CoresExample(a: Obj, b: Obj)
    requires a == Obj("core", 0, []) && b == Obj("core", 1, [])
    ensures Labels([a, b]) == ["core0", "core1"]
    ensures Flat("plat.node0", [a, b]) == [Entry("plat.node0.core0", []), Entry("plat.node0.core1", [])]
  {
    LabelExample();
    NoneFlat("plat.node0.core0");
    NoneFlat("plat.node0.core1");
    assert Labels([]) == [];
    hide Flat, NameOf, Label;
    FlatOne("plat.node0", a);
    FlatLast("plat.node0", [a], b);
    assert [a] + [b] == [a, b];
  }

  lemma FlatOne(prefix: string, o: Obj)
    ensures Flat(prefix, [o]) == [Entry(NameOf(prefix, o), Labels(o.kids))] + Flat(NameOf(prefix, o), o.kids)
  {
    hide NameOf, Labels;
    NoneFlat(prefix);
    FlatLast(prefix, [], o);
    assert [] + [o] == [o];
  }

  lemma LabelExample()
    ensures Label(Obj("core", 0, [])) == "core0" && Label(Obj("core", 1, [])) == "core1"
    ensures NameOf("plat.node0", Obj("core", 0, [])) == "plat.node0.core0" && NameOf("plat.node0", Obj("core", 1, [])) == "plat.node0.core1"
    ensures forall kids :: NameOf("plat", Obj("node", 0, kids)) == "plat.node0"
  {
    DigitsExample();
  }

  lemma DigitsExample()
    ensures Decimal(0) == "0" && Decimal(1) == "1"
  {}

  lemma FlatLast(prefix: string, front: seq<Obj>, o: Obj)
    ensures Flat(prefix, front + [o]) == Flat(prefix, front) + ([Entry(NameOf(prefix, o), Labels(o.kids))] + Flat(NameOf(prefix, o), o.kids))
  {
    hide NameOf, Labels;
    assert (front + [o])[..|front|] == front;
  }

  /** The whole list: the platform first. */
  ghost function FlatFile(root: string, kids: seq<Obj>): seq<Entry> { [Entry(root, Labels(kids))] + Flat(root, kids) }

  // -------------------------------------------------------- reading the list

  /** XmlConfig::findObject: the first entry of that name. */
  method FindObject(entries: seq<Entry>, name: string) returns (found: bool, k: nat)
    ensures found ==> k < |entries| && entries[k].name == name && forall j :: 0 <= j < k ==> entries[j].name != name
    ensures !found ==> forall j :: 0 <= j < |entries| ==> entries[j].name != name
  {
    k := 0;
    while k < |entries|
      invariant 0 <= k <= |entries| && forall j :: 0 <= j < k ==> entries[j].name != name
    {
      if entries[k].name == name { return true, k; }
      k := k + 1;
    }
    return false, 0;
  }

  /** Full names of an object's children. */
  function Full(prefix: string, labels: seq<string>): (s: seq<string>)
    ensures |s| == |labels| && forall i :: 0 <= i < |s| ==> s[i] == Dotted(prefix, labels[i])
  {
    seq(|labels|, i requires 0 <= i < |labels| => Dotted(prefix, labels[i]))
  }

  /** XmlConfig::findChildren of an entry. */
  method FindChildren(e: Entry) returns (ret: seq<string>)
    ensures ret == Full(e.name, e.children)
  {
    ret := [];
    var i := 0;
    while i < |e.children|
      invariant 0 <= i <= |e.children| && |ret| == i && forall j :: 0 <= j < i ==> ret[j] == Dotted(e.name, e.children[j])
    {
      ret := ret + [e.name + ['.'] + e.children[i]];
      i := i + 1;
    }
  }

  /** XmlConfig::findParent. */
  function FindParent(name: string): string {
    var pos := RFind(name, '.');
    if pos == -1 then [] else name[..pos]
  }

  // ----------------------------------------------------------- well-formed trees

  /** A label: a name without digits and dots, and its index. */
  ghost predicate GoodName(o: Obj) { o.name != [] && NoDigits(o.name) && '.' !in o.name }

  ghost predicate Good(o: Obj)
    decreases o
  {
    GoodName(o) && GoodAll(o.kids)
  }

  /** Brothers have different labels. */
  ghost predicate GoodAll(kids: seq<Obj>)
    decreases kids
  {
    kids == [] || (GoodAll(kids[..|kids| - 1]) && Good(kids[|kids| - 1])
                   && forall i :: 0 <= i < |kids| - 1 ==> Label(kids[i]) != Label(kids[|kids| - 1]))
  }

  /** The same, whether or not labels are different. */
  ghost predicate NamedAll(kids: seq<Obj>)
    decreases kids
  {
    kids == [] || (NamedAll(kids[..|kids| - 1]) && Named(kids[|kids| - 1]))
  }

  ghost predicate Named(o: Obj)
    decreases o
  {
    GoodName(o) && NamedAll(o.kids)
  }

  lemma LabelIsDotFree(o: Obj)
    requires GoodName(o)
    ensures '.' !in Label(o)
  {
    assert forall i :: 0 <= i < |Decimal(o.index)| ==> IsDigit(Decimal(o.index)[i]);
  }

  lemma LabelGivesIndex(a: Obj, b: Obj)
    requires GoodName(a) && GoodName(b) && Label(a) == Label(b)
    ensures a.index == b.index
  {
    PartReads(a.name, a.index);
    PartReads(b.name, b.index);
  }

  /** s is p, or goes on below it. */
  ghost predicate Within(p: string, s: string) { s == p || (|s| > |p| && s[..|p|] == p && s[|p|] == '.') }

  /** Below one parent, what is within two different labels is different. */
  lemma Apart(prefix: string, la: string, lb: string, s: string)
    requires '.' !in la && '.' !in lb && Within(Dotted(prefix, la), s) && Within(Dotted(prefix, lb), s)
    ensures la == lb
  {
    var t := s[|prefix| + 1..];
    LabelEnds(prefix, la, s, t);
    LabelEnds(prefix, lb, s, t);
    assert t[..|la|] == la && t[..|lb|] == lb;
  }

  lemma LabelEnds(prefix: string, l: string, s: string, t: string)
    requires '.' !in l && Within(Dotted(prefix, l), s) && |s| > |prefix| && t == s[|prefix| + 1..]
    ensures Find(t, '.') == |l| <= |t| && t[..|l|] == l
  {
    var p := Dotted(prefix, l);
    forall i | 0 <= i < |l| ensures t[i] == l[i] {
      assert t[i] == s[|prefix| + 1 + i] == s[..|p|][|prefix| + 1 + i] && p[|prefix| + 1 + i] == l[i];
    }
    assert |s| > |p| ==> t[|l|] == s[|p|] == '.';
  }

  // ----------------------------------------------------------- names and their cutting

  /** Every full name fits its buffer. */
  ghost predicate NamesFit(prefix: string, kids: seq<Obj>)
    decreases kids
  {
    kids == [] || (NamesFit(prefix, kids[..|kids| - 1]) && NameFits(prefix, kids[|kids| - 1]))
  }

  ghost predicate NameFits(prefix: string, o: Obj)
    decreases o
  {
    |Dotted(prefix, Label(o))| < 256 && NamesFit(NameOf(prefix, o), o.kids)
  }

  /** Cutting does no harm: different labels of brothers are still different in their full
      names, and nothing is below a name that fills its buffer. */
  ghost predicate StayApart(prefix: string, kids: seq<Obj>)
    decreases kids
  {
    kids == [] ||
      (StayApart(prefix, kids[..|kids| - 1]) && |prefix| < 255 && StayApart(NameOf(prefix, kids[|kids| - 1]), kids[|kids| - 1].kids)
       && forall i :: 0 <= i < |kids| - 1 && NameOf(prefix, kids[i]) == NameOf(prefix, kids[|kids| - 1]) ==> Label(kids[i]) == Label(kids[|kids| - 1]))
  }

  lemma {:induction false} FitFits(prefix: string, kids: seq<Obj>, i: nat)
    requires NamesFit(prefix, kids) && i < |kids|
    ensures NameOf(prefix, kids[i]) == Dotted(prefix, Label(kids[i])) && |prefix| < 255
  {
    if i < |kids| - 1 { FitFits(prefix, kids[..|kids| - 1], i); }
  }

  /** Names that fit are not cut. */
  lemma {:induction false} FitStay(prefix: string, kids: seq<Obj>)
    requires NamesFit(prefix, kids)
    ensures StayApart(prefix, kids)
    decreases kids
  {
    if kids != [] {
      var front, last := kids[..|kids| - 1], kids[|kids| - 1];
      FitStay(prefix, front);
      FitStay(NameOf(prefix, last), last.kids);
      FitFits(prefix, kids, |kids| - 1);
      forall i | 0 <= i < |front| && NameOf(prefix, kids[i]) == NameOf(prefix, last) ensures Label(kids[i]) == Label(last) {
        FitFits(prefix, kids, i);
        assert Dotted(prefix, Label(kids[i]))[|prefix| + 1..] == Label(kids[i]);
        assert Dotted(prefix, Label(last))[|prefix| + 1..] == Label(last);
      }
    }
  }

  /** What is left of an object's label in its full name. */
  function Short(prefix: string, o: Obj): string
    requires |prefix| < 255
  {
    NameOf(prefix, o)[|prefix| + 1..]
  }

  lemma ShortIsDotFree(prefix: string, o: Obj)
    requires |prefix| < 255 && GoodName(o)
    ensures NameOf(prefix, o) == Dotted(prefix, Short(prefix, o)) && '.' !in Short(prefix, o)
  {
    LabelIsDotFree(o);
    var d := Dotted(prefix, Label(o));
    assert d[..|prefix| + 1] == prefix + ['.'];
    assert d[|prefix| + 1..] == Label(o);
    forall i | 0 <= i < |Short(prefix, o)| ensures Short(prefix, o)[i] == Label(o)[i] {}
  }

  lemma {:induction false} NamesWithin(prefix: string, kids: seq<Obj>, e: Entry)
    requires e in Flat(prefix, kids) && StayApart(prefix, kids)
    ensures exists i :: 0 <= i < |kids| && Within(NameOf(prefix, kids[i]), e.name) && e in Block(prefix, kids[i])
    ensures Within(prefix, e.name) && e.name != prefix
    decreases kids
  {
    var front, last := kids[..|kids| - 1], kids[|kids| - 1];
    if e in Flat(prefix, front) {
      NamesWithin(prefix, front, e);
      var i :| 0 <= i < |front| && Within(NameOf(prefix, front[i]), e.name) && e in Block(prefix, front[i]);
      assert kids[i] == front[i];
    } else {
      BlockWithin(prefix, last, e);
      assert kids[|kids| - 1] == last;
    }
  }

  lemma {:induction false} BlockWithin(prefix: string, o: Obj, e: Entry)
    requires e in Block(prefix, o) && |prefix| < 255 && StayApart(NameOf(prefix, o), o.kids)
    ensures Within(NameOf(prefix, o), e.name)
    ensures Within(prefix, e.name) && e.name != prefix
    decreases o
  {
    var p := NameOf(prefix, o);
    NameBelow(prefix, o);
    if e != Entry(p, Labels(o.kids)) {
      NamesWithin(p, o.kids, e);
      assert e.name[..|prefix|] == e.name[..|p|][..|prefix|];
      assert e.name[|prefix|] == e.name[..|p|][|prefix|];
    }
  }

  lemma NameBelow(prefix: string, o: Obj)
    requires |prefix| < 255
    ensures |NameOf(prefix, o)| > |prefix| && NameOf(prefix, o)[..|prefix|] == prefix && NameOf(prefix, o)[|prefix|] == '.'
  {
    assert Dotted(prefix, Label(o))[..|prefix|] == prefix;
  }

  /** Below one parent, what is within the names of two objects is different. */
  lemma BrothersApart(prefix: string, a: Obj, b: Obj, s: string)
    requires |prefix| < 255 && GoodName(a) && GoodName(b) && Within(NameOf(prefix, a), s) && Within(NameOf(prefix, b), s)
    ensures NameOf(prefix, a) == NameOf(prefix, b)
  {
    hide Within, NameOf, Short, GoodName;
    ShortIsDotFree(prefix, a);
    ShortIsDotFree(prefix, b);
    Apart(prefix, Short(prefix, a), Short(prefix, b), s);
  }

  /** No two entries share a name. */
  ghost predicate Distinct(entries: seq<Entry>) {
    forall i, j :: 0 <= i < j < |entries| ==> entries[i].name != entries[j].name
  }

  lemma DistinctJoin(a: seq<Entry>, b: seq<Entry>)
    requires Distinct(a) && Distinct(b) && forall x, y :: x in a && y in b ==> x.name != y.name
    ensures Distinct(a + b)
  {
    forall i, j | 0 <= i < j < |a + b| ensures (a + b)[i].name != (a + b)[j].name {
      if i < |a| <= j { assert a[i] in a && b[j - |a|] in b; }
    }
  }

  lemma {:induction false} FlatDistinct(prefix: string, kids: seq<Obj>)
    requires GoodAll(kids) && StayApart(prefix, kids)
    ensures Distinct(Flat(prefix, kids))
    decreases kids, 0
  {
    hide Within, NameOf, Label;
    if kids != [] {
      var front, last := kids[..|kids| - 1], kids[|kids| - 1];
      FlatDistinct(prefix, front);
      BlockDistinct(prefix, last);
      forall x, y | x in Flat(prefix, front) && y in Block(prefix, last) ensures x.name != y.name {
        NamesWithin(prefix, front, x);
        BlockWithin(prefix, last, y);
        var i :| 0 <= i < |front| && Within(NameOf(prefix, front[i]), x.name) && x in Block(prefix, front[i]);
        assert kids[i] == front[i];
        GoodAt(kids, i);
        if x.name == y.name { BrothersApart(prefix, kids[i], last, x.name); }
      }
      DistinctJoin(Flat(prefix, front), Block(prefix, last));
    }
  }

  lemma {:induction false} GoodAt(kids: seq<Obj>, i: nat)
    requires GoodAll(kids) && i < |kids|
    ensures Good(kids[i])
  {
    if i < |kids| - 1 { GoodAt(kids[..|kids| - 1], i); }
  }

  lemma {:induction false} BlockDistinct(prefix: string, o: Obj)
    requires Good(o) && StayApart(NameOf(prefix, o), o.kids)
    ensures Distinct(Block(prefix, o))
    decreases o
  {
    ListDistinct(NameOf(prefix, o), o.kids);
  }

  lemma {:induction false} ListDistinct(root: string, kids: seq<Obj>)
    requires GoodAll(kids) && StayApart(root, kids)
    ensures Distinct(FlatFile(root, kids))
    decreases kids, 1
  {
    FlatDistinct(root, kids);
    forall x, y | x in [Entry(root, Labels(kids))] && y in Flat(root, kids) ensures x.name != y.name { NamesWithin(root, kids, y); }
    DistinctJoin([Entry(root, Labels(kids))], Flat(root, kids));
  }

  // ----------------------------------------------------------- the tree again

  /** Object o stands in the tree below prefix, under this full name. */
  ghost predicate Occurs(prefix: string, kids: seq<Obj>, full: string, o: Obj)
    decreases kids
  {
    kids != [] && (Occurs(prefix, kids[..|kids| - 1], full, o) || OccursIn(prefix, kids[|kids| - 1], full, o))
  }

  ghost predicate OccursIn(prefix: string, top: Obj, full: string, o: Obj)
    decreases top
  {
    (full == NameOf(prefix, top) && o == top) || Occurs(NameOf(prefix, top), top.kids, full, o)
  }

  /** The entries are exactly the objects of the tree, each with its children's labels. */
  lemma {:induction false} EntriesAreObjects(prefix: string, kids: seq<Obj>, full: string, labels: seq<string>)
    ensures Entry(full, labels) in Flat(prefix, kids) <==> exists o :: Occurs(prefix, kids, full, o) && labels == Labels(o.kids)
    decreases kids
  {
    if kids != [] {
      var front, last := kids[..|kids| - 1], kids[|kids| - 1];
      EntriesAreObjects(prefix, front, full, labels);
      BlockIsObjects(prefix, last, full, labels);
      if Entry(full, labels) in Flat(prefix, front) {
        var o :| Occurs(prefix, front, full, o) && labels == Labels(o.kids);
        assert Occurs(prefix, kids, full, o);
      } else if Entry(full, labels) in Block(prefix, last) {
        var o :| OccursIn(prefix, last, full, o) && labels == Labels(o.kids);
        assert Occurs(prefix, kids, full, o);
      }
    }
  }

  lemma {:induction false} BlockIsObjects(prefix: string, top: Obj, full: string, labels: seq<string>)
    ensures Entry(full, labels) in Block(prefix, top) <==> exists o :: OccursIn(prefix, top, full, o) && labels == Labels(o.kids)
    decreases top
  {
    var p := NameOf(prefix, top);
    EntriesAreObjects(p, top.kids, full, labels);
    if Entry(full, labels) in Flat(p, top.kids) {
      var o :| Occurs(p, top.kids, full, o) && labels == Labels(o.kids);
      assert OccursIn(prefix, top, full, o);
    } else if Entry(full, labels) == Entry(p, Labels(top.kids)) {
      assert OccursIn(prefix, top, full, top);
    }
  }

  lemma DistinctParts(a: seq<Entry>, b: seq<Entry>)
    requires Distinct(a + b)
    ensures Distinct(a) && Distinct(b) && forall x, y :: x in a && y in b ==> x.name != y.name
  {
    assert forall i :: 0 <= i < |a| ==> (a + b)[i] == a[i];
    assert forall i :: 0 <= i < |b| ==> (a + b)[|a| + i] == b[i];
  }

  lemma {:induction false} BrotherEntry(prefix: string, kids: seq<Obj>, i: nat)
    requires i < |kids|
    ensures Entry(NameOf(prefix, kids[i]), Labels(kids[i].kids)) in Flat(prefix, kids)
  {
    if i < |kids| - 1 { BrotherEntry(prefix, kids[..|kids| - 1], i); }
  }

  /** The names of a list are different exactly when brothers' labels are, at every depth, and
      cutting does no harm. */
  lemma FileDistinct(root: string, kids: seq<Obj>)
    requires NamedAll(kids) && |root| < 256
    ensures Distinct(FlatFile(root, kids)) <==> GoodAll(kids) && StayApart(root, kids)
  {
    if GoodAll(kids) && StayApart(root, kids) { ListDistinct(root, kids); }
    if Distinct(FlatFile(root, kids)) { ListApart(root, Labels(kids), kids); }
  }

  lemma {:induction false} ListApart(root: string, children: seq<string>, kids: seq<Obj>)
    requires NamedAll(kids) && |root| < 256 && Distinct([Entry(root, children)] + Flat(root, kids))
    ensures GoodAll(kids) && StayApart(root, kids)
    decreases kids
  {
    hide Label;
    if kids != [] {
      var top, front, last := [Entry(root, children)], kids[..|kids| - 1], kids[|kids| - 1];
      Assoc(top, Flat(root, front), Block(root, last));
      DistinctParts(top + Flat(root, front), Block(root, last));
      ListApart(root, children, front);
      ListApart(NameOf(root, last), Labels(last.kids), last.kids);
      var e := Entry(NameOf(root, last), Labels(last.kids));
      assert e in Block(root, last) && top[0] in top + Flat(root, front);
      FullBuffer(root, last);
      forall i | 0 <= i < |front| ensures NameOf(root, kids[i]) != NameOf(root, last) {
        BrotherEntry(root, front, i);
        assert front[i] == kids[i];
      }
      assert forall i :: 0 <= i < |front| ==> Label(kids[i]) == Label(last) ==> NameOf(root, kids[i]) == NameOf(root, last);
    }
  }

  lemma FullBuffer(root: string, o: Obj)
    ensures |root| == 255 ==> NameOf(root, o) == root
  {
    assert Dotted(root, Label(o))[..|root|] == root;
  }

  /** Where all names fit: exactly when brothers' labels are different. */
  lemma FittingDistinct(root: string, kids: seq<Obj>)
    requires NamedAll(kids) && |root| < 256 && NamesFit(root, kids)
    ensures Distinct(FlatFile(root, kids)) <==> GoodAll(kids)
  {
    FitStay(root, kids);
    FileDistinct(root, kids);
  }

  lemma {:induction false} GoodIsNamed(kids: seq<Obj>)
    requires GoodAll(kids)
    ensures NamedAll(kids)
    decreases kids
  {
    if kids != [] {
      GoodIsNamed(kids[..|kids| - 1]);
      GoodIsNamed(kids[|kids| - 1].kids);
    }
  }

  /** Looking an object up by its full name and asking for its children gives one name for
      each of its children, in their order: the child's name in the list exactly when that
      was not cut; and the parent of each is the object again. */
  method ChildrenRecovered(ghost root: string, ghost kids: seq<Obj>, entries: seq<Entry>, full: string, ghost o: Obj) returns (ret: seq<string>)
    requires GoodAll(kids) && StayApart(root, kids) && entries == FlatFile(root, kids) && Occurs(root, kids, full, o)
    ensures ret == Full(full, Labels(o.kids))
    ensures forall i :: 0 <= i < |ret| ==> FindParent(ret[i]) == full
    ensures forall i :: 0 <= i < |ret| ==> (ret[i] == NameOf(full, o.kids[i]) <==> |Dotted(full, Label(o.kids[i]))| < 256)
  {
    hide GoodAll, StayApart, FlatFile, Flat, Occurs, NameOf, FindParent;
    ListDistinct(root, kids);
    EntryThere(root, kids, full, o);
    ghost var e := Entry(full, Labels(o.kids));
    ghost var at :| 0 <= at < |entries| && entries[at] == e;
    var found, k := FindObject(entries, full);
    assert found && k == at;
    ret := FindChildren(entries[k]);
    OccursGood(root, kids, full, o);
    forall i | 0 <= i < |ret|
      ensures FindParent(ret[i]) == full && (ret[i] == NameOf(full, o.kids[i]) <==> |Dotted(full, Label(o.kids[i]))| < 256)
    {
      ChildRecovered(full, o.kids, i);
    }
  }

  lemma EntryThere(root: string, kids: seq<Obj>, full: string, o: Obj)
    requires Occurs(root, kids, full, o)
    ensures Entry(full, Labels(o.kids)) in FlatFile(root, kids)
  {
    EntriesAreObjects(root, kids, full, Labels(o.kids));
  }

  lemma {:induction false} OccursGood(prefix: string, kids: seq<Obj>, full: string, o: Obj)
    requires GoodAll(kids) && Occurs(prefix, kids, full, o)
    ensures Good(o) && GoodAll(o.kids)
    decreases kids
  {
    var front, last := kids[..|kids| - 1], kids[|kids| - 1];
    if Occurs(prefix, front, full, o) {
      OccursGood(prefix, front, full, o);
    } else if o != last {
      OccursGood(NameOf(prefix, last), last.kids, full, o);
    }
  }

  lemma ChildRecovered(full: string, kids: seq<Obj>, i: nat)
    requires GoodAll(kids) && i < |kids|
    ensures FindParent(Dotted(full, Snprintf(Label(kids[i])))) == full
    ensures Dotted(full, Snprintf(Label(kids[i]))) == NameOf(full, kids[i]) <==> |Dotted(full, Label(kids[i]))| < 256
  {
    hide Label;
    GoodAt(kids, i);
    LabelIsDotFree(kids[i]);
    DotParent(full, Snprintf(Label(kids[i])));
  }

  lemma DotParent(full: string, l: string)
    requires '.' !in l
    ensures FindParent(Dotted(full, l)) == full
  {
    RFindLast(full, l, '.');
    assert Dotted(full, l)[..|full|] == full;
  }

  /** Cutting a name of the list at its last dot gives the parent's name exactly when that
      does not fill its buffer. */
  lemma ParentRecovered(full: string, o: Obj)
    requires GoodName(o) && |full| < 256
    ensures FindParent(NameOf(full, o)) == full <==> |full| < 255
  {
    if |full| < 255 {
      ShortIsDotFree(full, o);
      DotParent(full, Short(full, o));
    } else {
      FullBuffer(full, o);
    }
  }

  // ------------------------------------------- from the hwloc file to the list

  /** An object element of hwloc's file: its type, and the object elements below it. */
  datatype HwObj = HwObj(kind: string, kids: seq<HwObj>)

  /** The name translate gives an object of this type, if it keeps it. */
  function NameFor(kind: string): Option<string> {
    if kind == "Machine" then Some("node") else if kind == "Socket" then Some("socket") else if kind == "Core" then Some("core") else None
  }

  /** What translate makes of these objects, numbering from index on: an object it does not
      keep is replaced by what is below it, which goes on with the same numbers. */
  ghost function Trans(objs: seq<HwObj>, index: nat): seq<Obj>
    decreases objs
  {
    if objs == [] then [] else
      var front := Trans(objs[..|objs| - 1], index);
      front + TransOne(objs[|objs| - 1], index + |front|)
  }

  ghost function TransOne(h: HwObj, index: nat): seq<Obj>
    decreases h
  {
    if NameFor(h.kind).Some? then [Obj(NameFor(h.kind).value, index, Trans(h.kids, 0))] else Trans(h.kids, index)
  }

  lemma TransStep(objs: seq<HwObj>, i: nat, index: nat)
    requires i < |objs|
    ensures Trans(objs[..i + 1], index) == Trans(objs[..i], index) + TransOne(objs[i], index + |Trans(objs[..i], index)|)
  {
    assert objs[..i + 1][..i] == objs[..i];
  }

  /** translate: the objects go to the end of the parent's children. */
  method Translate(objs: seq<HwObj>, parent: seq<Obj>, index: nat) returns (out: seq<Obj>, next: nat)
    ensures out == parent + Trans(objs, index) && next == index + |Trans(objs, index)|
    decreases objs
  {
    out, next := parent, index;
    var i := 0;
    assert objs[..0] == [];
    while i < |objs|
      invariant 0 <= i <= |objs| && out == parent + Trans(objs[..i], index) && next == index + |Trans(objs[..i], index)|
    {
      TransStep(objs, i, index);
      ghost var before, one := Trans(objs[..i], index), TransOne(objs[i], next);
      var name := NameFor(objs[i].kind);
      if name.Some? {
        var below, _ := Translate(objs[i].kids, [], 0);
        assert below == Trans(objs[i].kids, 0);
        out := out + [Obj(name.value, next, below)];
        next := next + 1;
      } else {
        out, next := Translate(objs[i].kids, out, next);
      }
      assert out == parent + (before + one);
      i := i + 1;
    }
    assert objs[..i] == objs;
  }

  // --------------------------------------------------- what translate keeps

  /** An object met on the way through a tree, with the number of objects above it that the
      list keeps. */
  datatype Met = Met(depth: nat, kind: string)

  predicate IsKept(kind: string) { kind == "Machine" || kind == "Socket" || kind == "Core" }

  /** All objects of hwloc's tree, each before those below it. */
  ghost function Walk(objs: seq<HwObj>, depth: nat): seq<Met>
    decreases objs
  {
    if objs == [] then [] else Walk(objs[..|objs| - 1], depth) + WalkOne(objs[|objs| - 1], depth)
  }

  ghost function WalkOne(h: HwObj, depth: nat): seq<Met>
    decreases h
  {
    [Met(depth, h.kind)] + Walk(h.kids, if IsKept(h.kind) then depth + 1 else depth)
  }

  /** Those of the three kinds kept, under their new names. */
  ghost function Renamed(ms: seq<Met>): seq<Met> {
    if ms == [] then [] else
      var last := ms[|ms| - 1];
      Renamed(ms[..|ms| - 1]) + if last.kind == "Machine" then [Met(last.depth, "node")]
                                else if last.kind == "Socket" then [Met(last.depth, "socket")]
                                else if last.kind == "Core" then [Met(last.depth, "core")] else []
  }

  /** All objects of the new tree, each before those below it, with their depths. */
  ghost function Listed(kids: seq<Obj>, depth: nat): seq<Met>
    decreases kids
  {
    if kids == [] then [] else Listed(kids[..|kids| - 1], depth) + ListedOne(kids[|kids| - 1], depth)
  }

  ghost function ListedOne(o: Obj, depth: nat): seq<Met>
    decreases o
  {
    [Met(depth, o.name)] + Listed(o.kids, depth + 1)
  }

  lemma {:induction false} RenamedJoin(a: seq<Met>, b: seq<Met>)
    ensures Renamed(a + b) == Renamed(a) + Renamed(b)
  {
    if b == [] {
      assert a + b == a;
    } else {
      assert (a + b)[..|a + b| - 1] == a + b[..|b| - 1];
      RenamedJoin(a, b[..|b| - 1]);
    }
  }

  lemma {:induction false} ListedJoin(a: seq<Obj>, b: seq<Obj>, depth: nat)
    ensures Listed(a + b, depth) == Listed(a, depth) + Listed(b, depth)
  {
    hide ListedOne;
    if b == [] {
      assert a + b == a;
    } else {
      assert (a + b)[..|a + b| - 1] == a + b[..|b| - 1];
      ListedJoin(a, b[..|b| - 1], depth);
      Assoc(Listed(a, depth), Listed(b[..|b| - 1], depth), ListedOne(b[|b| - 1], depth));
    }
  }

  /** The translated tree holds exactly the machines, sockets and cores of hwloc's tree, in
      their order, as nodes, sockets and cores, each below its nearest kept ancestor. */
  lemma {:induction false} TransKeeps(objs: seq<HwObj>, index: nat, depth: nat)
    ensures Listed(Trans(objs, index), depth) == Renamed(Walk(objs, depth))
    decreases objs
  {
    hide TransOne, WalkOne, ListedOne;
    if objs != [] {
      var front, h := objs[..|objs| - 1], objs[|objs| - 1];
      TransKeeps(front, index, depth);
      TransOneKeeps(h, index + |Trans(front, index)|, depth);
      ListedJoin(Trans(front, index), TransOne(h, index + |Trans(front, index)|), depth);
      RenamedJoin(Walk(front, depth), WalkOne(h, depth));
    }
  }

  lemma {:induction false} TransOneKeeps(h: HwObj, index: nat, depth: nat)
    ensures Listed(TransOne(h, index), depth) == Renamed(WalkOne(h, depth))
    decreases h
  {
    hide Trans, Walk;
    var under := if IsKept(h.kind) then depth + 1 else depth;
    RenamedJoin([Met(depth, h.kind)], Walk(h.kids, under));
    assert [Met(depth, h.kind)][..0] == [];
    if IsKept(h.kind) {
      TransKeeps(h.kids, 0, depth + 1);
      assert TransOne(h, index)[..0] == [];
    } else {
      TransKeeps(h.kids, index, depth);
    }
  }

  /** The children of one parent are numbered index, index + 1 and so on, through whatever
      objects were left out between them; so their labels are all different. */
  lemma {:induction false} TransGood(objs: seq<HwObj>, index: nat)
    ensures forall i :: 0 <= i < |Trans(objs, index)| ==> Trans(objs, index)[i].index == index + i
    ensures GoodAll(Trans(objs, index))
    decreases objs
  {
    hide GoodAll, TransOne, Label;
    if objs == [] {
      NoneGood();
    } else {
      var front := Trans(objs[..|objs| - 1], index);
      TransGood(objs[..|objs| - 1], index);
      TransOneGood(objs[|objs| - 1], index + |front|);
      NumberedJoin(front, TransOne(objs[|objs| - 1], index + |front|), index);
    }
  }

  lemma NoneGood()
    ensures GoodAll([])
  {}

  lemma {:induction false} TransOneGood(h: HwObj, index: nat)
    ensures forall i :: 0 <= i < |TransOne(h, index)| ==> TransOne(h, index)[i].index == index + i
    ensures GoodAll(TransOne(h, index))
    decreases h
  {
    if NameFor(h.kind).Some? {
      TransGood(h.kids, 0);
      NameIsGood(h.kind);
      assert TransOne(h, index)[..0] == [] && Good(TransOne(h, index)[0]);
    } else {
      TransGood(h.kids, index);
    }
  }

  lemma NameIsGood(kind: string)
    ensures NameFor(kind).Some? ==> NameFor(kind).value != [] && NoDigits(NameFor(kind).value) && '.' !in NameFor(kind).value
  {}

  lemma OtherLabel(kids: seq<Obj>, i: nat, o: Obj)
    requires GoodAll(kids) && i < |kids| && Good(o) && kids[i].index != o.index
    ensures Label(kids[i]) != Label(o)
  {
    GoodAt(kids, i);
    if Label(kids[i]) == Label(o) { LabelGivesIndex(kids[i], o); }
  }

  lemma {:induction false} NumberedJoin(a: seq<Obj>, b: seq<Obj>, index: nat)
    requires GoodAll(a) && GoodAll(b)
    requires forall i :: 0 <= i < |a| ==> a[i].index == index + i
    requires forall i :: 0 <= i < |b| ==> b[i].index == index + |a| + i
    ensures GoodAll(a + b)
    decreases |b|
  {
    hide Label, Good;
    if b == [] {
      assert a + b == a;
    } else {
      var front, last := b[..|b| - 1], b[|b| - 1];
      NumberedJoin(a, front, index);
      assert (a + b)[..|a + b| - 1] == a + front;
      forall i | 0 <= i < |a + b| - 1 ensures Label((a + b)[i]) != Label(last) {
        assert (a + b)[i] == (a + front)[i] && (a + b)[i].index == index + i;
        OtherLabel(a + front, i, last);
      }
    }
  }

  /** DeepClone. */
  method DeepClone(input: Obj) returns (output: Obj)
    ensures output == input
    decreases input
  {
    var kids: seq<Obj> := [];
    var i := 0;
    while i < |input.kids|
      invariant 0 <= i <= |input.kids| && kids == input.kids[..i]
    {
      var child := DeepClone(input.kids[i]);
      kids := kids + [child];
      i := i + 1;
    }
    output := Obj(input.name, input.index, kids);
  }

  /** Copies of an object, numbered from 1 on. */
  function Copies(o: Obj, n: nat): (s: seq<Obj>)
    ensures |s| == n && forall i :: 0 <= i < n ==> s[i] == o.(index := i + 1)
  {
    seq(n, i requires 0 <= i < n => o.(index := i + 1))
  }

  /** The platform's children after duplicate. */
  function Duplicated(tops: seq<Obj>, nodecount: int): seq<Obj>
    requires nodecount < 2 || tops != []
  {
    if nodecount < 2 then tops else tops + Copies(tops[0], nodecount - 1)
  }

  /** duplicate; without a first child it would clone a null pointer. */
  method Duplicate(tops: seq<Obj>, nodecount: int) returns (ok: bool, out: seq<Obj>)
    ensures ok <==> nodecount < 2 || tops != []
    ensures ok ==> out == Duplicated(tops, nodecount)
    ensures ok && nodecount < 2 ==> out == tops
    ensures ok && nodecount >= 2 ==> |out| == |tops| + nodecount - 1 && out[..|tops|] == tops
                                     && forall i :: 1 <= i < nodecount ==> out[|tops| + i - 1] == Obj(tops[0].name, i, tops[0].kids)
  {
    out := tops;
    var i := 1;
    while i < nodecount
      invariant i == 1 || 1 < i <= nodecount
      invariant i > 1 ==> tops != []
      invariant out == if i == 1 then tops else tops + Copies(tops[0], i - 1)
    {
      if tops == [] { return false, []; }
      var newdup := DeepClone(tops[0]);
      out := out + [newdup.(index := i)];
      assert Copies(tops[0], i) == Copies(tops[0], i - 1) + [tops[0].(index := i)];
      assert i == 1 ==> Copies(tops[0], 0) == [];
      i := i + 1;
    }
    ok := true;
  }

  /** Object k of the platform, for a k that also numbers a copy, is of another type than the
      one copied. */
  ghost predicate CopiesApart(tops: seq<Obj>, nodecount: int) {
    forall k :: 1 <= k < |tops| && k < nodecount ==> tops[k].name != tops[0].name
  }

  /** Copying the first of several objects numbered from 0 gives brothers with one label
      exactly when an object of its type has the number of a copy. */
  lemma DuplicatedGoodIff(tops: seq<Obj>, nodecount: int)
    requires GoodAll(tops) && (nodecount < 2 || tops != [])
    requires forall i :: 0 <= i < |tops| ==> tops[i].index == i
    ensures NamedAll(Duplicated(tops, nodecount))
    ensures GoodAll(Duplicated(tops, nodecount)) <==> CopiesApart(tops, nodecount)
  {
    hide GoodAll, NamedAll, Label, Good, Named;
    GoodIsNamed(tops);
    if nodecount >= 2 {
      FirstGood(tops);
      CopiesNamed(tops, Copies(tops[0], nodecount - 1));
      CopiesGoodIff(tops, Copies(tops[0], nodecount - 1));
    }
  }

  lemma FirstGood(tops: seq<Obj>)
    requires GoodAll(tops) && tops != []
    ensures Good(tops[0]) && Named(tops[0])
  {
    GoodAt(tops, 0);
    GoodIsNamed(tops[0].kids);
  }

  lemma {:induction false} CopiesNamed(tops: seq<Obj>, copies: seq<Obj>)
    requires NamedAll(tops) && tops != [] && Named(tops[0])
    requires forall i :: 0 <= i < |copies| ==> copies[i] == tops[0].(index := i + 1)
    ensures NamedAll(tops + copies)
    decreases |copies|
  {
    if copies == [] {
      assert tops + copies == tops;
    } else {
      CopiesNamed(tops, copies[..|copies| - 1]);
      assert (tops + copies)[..|tops + copies| - 1] == tops + copies[..|copies| - 1];
    }
  }

  lemma {:induction false} CopiesGoodIff(tops: seq<Obj>, copies: seq<Obj>)
    requires GoodAll(tops) && tops != [] && Good(tops[0]) && forall i :: 0 <= i < |tops| ==> tops[i].index == i
    requires forall i :: 0 <= i < |copies| ==> copies[i] == tops[0].(index := i + 1)
    ensures GoodAll(tops + copies) <==> CopiesApart(tops, |copies| + 1)
    decreases |copies|
  {
    if copies == [] {
      assert tops + copies == tops;
    } else {
      var n := |copies| - 1;
      var front, last := tops + copies[..n], copies[n];
      CopiesGoodIff(tops, copies[..n]);
      assert (tops + copies)[..|tops + copies| - 1] == front;
      assert GoodAll(tops + copies) <==> GoodAll(front) && Good(last) && forall i :: 0 <= i < |front| ==> Label((tops + copies)[i]) != Label(last);
      forall i | 0 <= i < |front| ensures Label((tops + copies)[i]) == Label(last) <==> i == n + 1 && i < |tops| && tops[i].name == tops[0].name {
        LastLabel(tops, copies, n, i);
      }
      if n + 1 < |tops| { assert front[n + 1] == tops[n + 1]; }
    }
  }

  lemma LastLabel(tops: seq<Obj>, copies: seq<Obj>, n: nat, i: nat)
    requires GoodAll(tops) && tops != [] && Good(tops[0]) && forall i :: 0 <= i < |tops| ==> tops[i].index == i
    requires forall i :: 0 <= i < |copies| ==> copies[i] == tops[0].(index := i + 1)
    requires n == |copies| - 1 && i < |tops| + n
    ensures Label((tops + copies)[i]) == Label(copies[n]) <==> i == n + 1 && i < |tops| && tops[i].name == tops[0].name
  {
    var o := (tops + copies)[i];
    if i < |tops| { GoodAt(tops, i); }
    if Label(o) == Label(copies[n]) {
      LabelGivesIndex(o, copies[n]);
      PartReads(o.name, o.index);
      PartReads(copies[n].name, copies[n].index);
    }
  }

  /** The objects below the platform that main writes. */
  ghost function Generated(topology: seq<HwObj>, nodecount: int): seq<Obj>
    requires nodecount < 2 || Trans(topology, 0) != []
  {
    Duplicated(Trans(topology, 0), nodecount)
  }

  /** translate, duplicate and flatten, one after the other. */
  method Generate(topology: seq<HwObj>, nodecount: int) returns (ok: bool, entries: seq<Entry>)
    ensures ok <==> nodecount < 2 || Trans(topology, 0) != []
    ensures ok ==> entries == FlatFile("plat", Generated(topology, nodecount))
  {
    hide Trans, Flat, Labels, Copies;
    var tops, _ := Translate(topology, [], 0);
    assert tops == Trans(topology, 0);
    ok, tops := Duplicate(tops, nodecount);
    if !ok { return false, []; }
    var below, children := FlattenKids("plat", tops, []);
    entries := [Entry("plat", children)] + below;
  }

  /** The names in the file are pairwise distinct exactly when no object of the platform has
      both the type of the first and the number of a copy, and cutting does no harm. */
  lemma GeneratedDistinctIff(topology: seq<HwObj>, nodecount: int)
    requires nodecount < 2 || Trans(topology, 0) != []
    ensures Distinct(FlatFile("plat", Generated(topology, nodecount)))
            <==> CopiesApart(Trans(topology, 0), nodecount) && StayApart("plat", Generated(topology, nodecount))
    ensures GoodAll(Generated(topology, nodecount)) <==> CopiesApart(Trans(topology, 0), nodecount)
  {
    hide GoodAll, NamedAll, StayApart, FlatFile, Trans, CopiesApart;
    TransGood(topology, 0);
    DuplicatedGoodIff(Trans(topology, 0), nodecount);
    FileDistinct("plat", Generated(topology, nodecount));
  }

  /** In a file whose top objects are machines, with names that fit: exactly with fewer than
      two nodes or with one machine. */
  lemma MachinesDistinctIff(topology: seq<HwObj>, nodecount: int)
    requires nodecount < 2 || topology != []
    requires forall h :: h in topology ==> h.kind == "Machine"
    ensures Trans(topology, 0) == [] <==> topology == []
    ensures Distinct(FlatFile("plat", Generated(topology, nodecount)))
            <==> (nodecount < 2 || |topology| == 1) && StayApart("plat", Generated(topology, nodecount))
    ensures NamesFit("plat", Generated(topology, nodecount)) ==> StayApart("plat", Generated(topology, nodecount))
  {
    hide StayApart, NamesFit;
    MachinesStay(topology, 0);
    GeneratedDistinctIff(topology, nodecount);
    var tops := Trans(topology, 0);
    if nodecount >= 2 && |topology| >= 2 { assert tops[1].name == tops[0].name; }
    if NamesFit("plat", Generated(topology, nodecount)) { FitStay("plat", Generated(topology, nodecount)); }
  }

  /** Two machines and a copy: two objects are called plat.node1. */
  lemma TwoMachinesClash()
    ensures var two := [HwObj("Machine", []), HwObj("Machine", [])];
            Trans(two, 0) != [] && !Distinct(FlatFile("plat", Generated(two, 2)))
  {
    MachinesDistinctIff([HwObj("Machine", []), HwObj("Machine", [])], 2);
  }

  lemma {:induction false} MachinesStay(objs: seq<HwObj>, index: nat)
    requires forall h :: h in objs ==> h.kind == "Machine"
    ensures |Trans(objs, index)| == |objs| && forall i :: 0 <= i < |objs| ==> Trans(objs, index)[i].name == "node"
  {
    if objs != [] { MachinesStay(objs[..|objs| - 1], index); }
  }

  /** Cores in cores, to this depth. */
  function Nested(depth: nat): seq<HwObj> { if depth == 0 then [] else [HwObj("Core", Nested(depth - 1))] }

  /** Each level takes six characters, and the name that fills the buffer has nothing below. */
  lemma {:induction false} NestedStayIff(prefix: string, depth: nat)
    requires |prefix| < 256
    ensures StayApart(prefix, Trans(Nested(depth), 0)) <==> depth == 0 || |prefix| + 6 * (depth - 1) < 255
    decreases depth
  {
    hide Trans, StayApart, Nested, NameOf, Label;
    NestedCores(depth);
    if depth == 0 {
      NoneStay(prefix);
    } else {
      var o := Obj("core", 0, Trans(Nested(depth - 1), 0));
      OneStays(prefix, o);
      CoreName(prefix, o);
      NestedStayIff(NameOf(prefix, o), depth - 1);
    }
  }

  lemma NestedCores(depth: nat)
    ensures Trans(Nested(depth), 0) == if depth == 0 then [] else [Obj("core", 0, Trans(Nested(depth - 1), 0))]
  {
    if depth > 0 {
      var h := HwObj("Core", Nested(depth - 1));
      assert Nested(depth) == [h] && [h][..0] == [];
    }
  }

  lemma NoneStay(prefix: string)
    ensures StayApart(prefix, [])
  {}

  lemma OneStays(prefix: string, o: Obj)
    ensures StayApart(prefix, [o]) <==> |prefix| < 255 && StayApart(NameOf(prefix, o), o.kids)
  {
    hide NameOf, Label;
    assert [o][..0] == [];
  }

  lemma CoreName(prefix: string, o: Obj)
    requires o.name == "core" && o.index == 0
    ensures |NameOf(prefix, o)| == if |prefix| < 250 then |prefix| + 6 else 255
  {
    assert Label(o) == "core0";
  }

  /** With 42 cores in one another all names are different; a 43rd has its parent's name. */
  lemma NestedDistinctIff(depth: nat)
    ensures Distinct(FlatFile("plat", Generated(Nested(depth), 1))) <==> depth <= 42
  {
    hide Trans, Nested, StayApart, FlatFile, Distinct;
    GeneratedDistinctIff(Nested(depth), 1);
    NestedStayIff("plat", depth);
  }

  /** The numbers alone are different exactly then, whatever the objects are. */
  lemma IndicesApartIff(topology: seq<HwObj>, nodecount: int)
    requires nodecount < 2 || Trans(topology, 0) != []
    ensures (forall i, j :: 0 <= i < j < |Generated(topology, nodecount)| ==>
               Generated(topology, nodecount)[i].index != Generated(topology, nodecount)[j].index)
            <==> nodecount < 2 || |Trans(topology, 0)| == 1
  {
    TransGood(topology, 0);
    var tops, all := Trans(topology, 0), Generated(topology, nodecount);
    if nodecount >= 2 && |tops| >= 2 { assert all[1].index == all[|tops|].index; }
  }

  /** In a generated file with distinct names, every object's children and their parent are
      found again; the children's names as they stand in the file where those are not cut. */
  method GeneratedRecovered(topology: seq<HwObj>, nodecount: int, full: string, ghost o: Obj) returns (ret: seq<string>)
    requires nodecount < 2 || Trans(topology, 0) != []
    requires Distinct(FlatFile("plat", Generated(topology, nodecount)))
    requires Occurs("plat", Generated(topology, nodecount), full, o)
    ensures ret == Full(full, Labels(o.kids))
    ensures forall i :: 0 <= i < |ret| ==> FindParent(ret[i]) == full
    ensures forall i :: 0 <= i < |ret| ==> (ret[i] == NameOf(full, o.kids[i]) <==> |Dotted(full, Label(o.kids[i]))| < 256)
  {
    hide GoodAll, StayApart, Distinct, FlatFile, Occurs, CopiesApart, NameOf, FindParent, Generated;
    var ok, entries := Generate(topology, nodecount);
    GeneratedDistinctIff(topology, nodecount);
    ret := ChildrenRecovered("plat", Generated(topology, nodecount), entries, full, o);
  }
}
