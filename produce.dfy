/** The registry of response encoders (`ProduceProcessorManager`) as plain
    data, and the tables `RestOperationMeta.createProduceProcessors` builds
    from it. */
module Produce {
  import opened Wrappers
  import opened Maps

  /** A response encoder (`ProduceProcessor`). Only its name matters to the
      metadata; `id` tells apart encoders that share a name. */
  datatype Processor = Processor(name: string, id: nat)

  /** `ProduceProcessorManager.INSTANCE` together with its two constants. */
  datatype ProcessorManager = ProcessorManager(
    /** `values()`, in the order the manager iterates them */
    processors: seq<Processor>,
    /** `findValue(key)`: the encoder registered under a content type */
    registered: map<string, Processor>,
    /** `DEFAULT_TYPE` */
    defaultType: string,
    /** `DEFAULT_PROCESSOR` */
    defaultProcessor: Processor)

  /** The `put`s that register every processor under its own name. */
  function NameEntries(ps: seq<Processor>): seq<(string, Processor)> {
    seq(|ps|, i requires 0 <= i < |ps| => (ps[i].name, ps[i]))
  }

  /** The `put`s the declared produces give rise to: one per declared type
      that the manager recognises, in declaration order; the others are skipped. */
  function DeclaredEntries(produces: seq<string>, registered: map<string, Processor>): seq<(string, Processor)>
    decreases |produces|
  {
    if produces == [] then []
    else
      var last := produces[|produces| - 1];
      var before := DeclaredEntries(produces[..|produces| - 1], registered);
      if last in registered then before + [(last, registered[last])] else before
  }

  /** Each declared registration pairs a recognised declared type with the
      manager's encoder for it, and every recognised declared type has one. */
  lemma {:induction false} DeclaredEntriesShape(produces: seq<string>, registered: map<string, Processor>)
    ensures forall e :: e in DeclaredEntries(produces, registered) ==>
              e.0 in produces && e.0 in registered && e.1 == registered[e.0]
    ensures forall p :: p in produces && p in registered ==>
              exists e :: e in DeclaredEntries(produces, registered) && e.0 == p
    decreases |produces|
  {
    if produces != [] {
      var n := |produces| - 1;
      var init := produces[..n];
      DeclaredEntriesShape(init, registered);
      var before := DeclaredEntries(init, registered);
      var es := DeclaredEntries(produces, registered);
      assert produces == init + [produces[n]];
      forall e | e in es
        ensures e.0 in produces && e.0 in registered && e.1 == registered[e.0]
      {
        if e in before {
          assert e.0 in init;
        }
      }
      forall p | p in produces && p in registered
        ensures exists e :: e in es && e.0 == p
      {
        if p == produces[n] {
          assert es[|es| - 1] in es;
        } else {
          assert p in init;
          var e :| e in before && e.0 == p;
          assert e in es;
        }
      }
    }
  }

  /** With declared produces, the table's new keys are exactly the declared
      types the manager recognises, each mapped to the manager's encoder;
      entries already there and not redeclared are kept. */
  lemma DeclaredTable(m: map<string, Processor>, produces: seq<string>, registered: map<string, Processor>)
    ensures var r := PutAll(m, DeclaredEntries(produces, registered));
      && r.Keys == m.Keys + (set p | p in produces && p in registered)
      && (forall p :: p in produces && p in registered ==> r[p] == registered[p])
      && (forall k :: k in m && !(k in produces && k in registered) ==> r[k] == m[k])
  {
    var es := DeclaredEntries(produces, registered);
    var r := PutAll(m, es);
    PutAllKeys(m, es);
    DeclaredEntriesShape(produces, registered);
    assert (set e | e in es :: e.0) == (set p | p in produces && p in registered);
    forall p | p in produces && p in registered
      ensures r[p] == registered[p]
    {
      var e :| e in es && e.0 == p;
      var i :| 0 <= i < |es| && es[i] == e;
      PutAllUniformValue(m, es, p, registered[p]);
    }
    forall k | k in m && !(k in produces && k in registered)
      ensures r[k] == m[k]
    {
      PutAllLastWins(m, es, k);
    }
  }

  /** With no declared produces, every processor is filed under its name; a
      name shared by several processors ends up with the last of them. */
  lemma NameTable(m: map<string, Processor>, ps: seq<Processor>, i: nat)
    requires i < |ps|
    requires forall j :: i < j < |ps| ==> ps[j].name != ps[i].name
    ensures PutAll(m, NameEntries(ps)).Keys == m.Keys + (set p | p in ps :: p.name)
    ensures PutAll(m, NameEntries(ps))[ps[i].name] == ps[i]
  {
    var es := NameEntries(ps);
    assert es[i] == (ps[i].name, ps[i]);
    assert forall j :: i < j < |es| ==> es[j].0 == ps[j].name != ps[i].name;
    PutAllLastWins(m, es, ps[i].name);
    PutAllKeys(m, es);
    NameEntriesKeys(ps);
  }

  lemma NameEntriesKeys(ps: seq<Processor>)
    ensures (set e | e in NameEntries(ps) :: e.0) == (set p | p in ps :: p.name)
  {
    var es := NameEntries(ps);
    assert (set e | e in es :: e.0) == (set p | p in ps :: p.name) by {
      forall e | e in es
        ensures e.0 in (set p | p in ps :: p.name)
      {
        var j :| 0 <= j < |es| && es[j] == e;
        assert ps[j] in ps;
      }
      forall p | p in ps
        ensures p.name in (set e | e in es :: e.0)
      {
        var j :| 0 <= j < |ps| && ps[j] == p;
        assert es[j] in es;
      }
    }
  }

  /** What `getDefaultOrFirstProcessor` may return for table `m`: the entry
      for the default type when there is one, else some value of the table
      (hash-map iteration order is not fixed), else `null`. */
  ghost predicate IsDefaultOrFirst(m: map<string, Processor>, defaultType: string, d: Option<Processor>) {
    if defaultType in m then d == Some(m[defaultType])
    else if m == map[] then d == None
    else d.Some? && d.value in m.Values
  }
}
