/**
 The model registry: which models are accepted, and which model a table name resolves to.
*/
module Registry {
  import opened Common
  import opened HashTable
  import opened QueryCalls

  /** A model as the caller hands it over: names may be missing. */
  datatype Candidate = Candidate(table: Option<string>, names: seq<Option<string>>, structSize: nat)

  datatype Verdict = Ok | NullGiven | BadType | BadBounds | Duplicate

  predicate Present(c: Candidate) {
    c.table.Some? && c.names != []
  }

  predicate Titled(c: Candidate) {
    Present(c) && ValidIdentifier(c.table.value)
  }

  predicate Named(c: Candidate, i: nat)
    requires i < |c.names|
  {
    c.names[i].Some? && ValidIdentifier(c.names[i].value)
  }

  /** A later field has the same name. */
  predicate Repeated(c: Candidate, i: nat)
    requires i < |c.names|
  {
    c.names[i].Some? && exists j :: i < j < |c.names| && c.names[j] == c.names[i]
  }

  predicate Sound(c: Candidate, n: nat)
    requires n <= |c.names|
  {
    forall i :: 0 <= i < n ==> Named(c, i) && !Repeated(c, i)
  }

  predicate Acceptable(c: Candidate) {
    Titled(c) && c.structSize > 0 && Sound(c, |c.names|)
  }

  /** The first flaw decides the verdict. */
  predicate Judged(c: Candidate, verdict: Verdict) {
    match verdict
    case NullGiven => !Present(c)
    case BadType =>
      Present(c) && (!Titled(c) || (c.structSize > 0 && exists i :: 0 <= i < |c.names| && Sound(c, i) && !Named(c, i)))
    case BadBounds => Titled(c) && c.structSize == 0
    case Duplicate =>
      Titled(c) && c.structSize > 0 && exists i :: 0 <= i < |c.names| && Sound(c, i) && Named(c, i) && Repeated(c, i)
    case Ok => Acceptable(c)
  }

  /** Only one field can be the first flawed one. */
  lemma {:induction false} OneFlaw(c: Candidate, i: nat)
    requires i < |c.names| && Sound(c, i) && !(Named(c, i) && !Repeated(c, i))
    ensures forall k :: 0 <= k < |c.names| && Sound(c, k) && (!Named(c, k) || Repeated(c, k)) ==> k == i
    ensures !Acceptable(c)
  {}

  /** There is one verdict for each model. */
  lemma {:induction false} JudgedOnce(c: Candidate, a: Verdict, b: Verdict)
    requires Judged(c, a) && Judged(c, b)
    ensures a == b
  {}

  lemma {:induction false} OkIsAcceptable(c: Candidate, verdict: Verdict)
    requires Judged(c, verdict)
    ensures (verdict.Ok? <==> Acceptable(c)) && (verdict.Ok? ==> c.table.Some?)
  {
    if Acceptable(c) {
      JudgedOnce(c, verdict, Ok);
    }
  }

  /** `corm_validate_model`. */
  method Validate(c: Candidate) returns (verdict: Verdict)
    ensures Judged(c, verdict)
  {
    if c.table.None? || |c.names| == 0 {
      return NullGiven;
    }
    if !ValidIdentifier(c.table.value) {
      return BadType;
    }
    if c.structSize == 0 {
      return BadBounds;
    }
    for i := 0 to |c.names|
      invariant Sound(c, i)
    {
      if c.names[i].None? || !ValidIdentifier(c.names[i].value) {
        OneFlaw(c, i);
        return BadType;
      }
      for j := i + 1 to |c.names|
        invariant forall k :: i < k < j ==> c.names[k] != c.names[i]
      {
        if c.names[j].Some? && c.names[j].value == c.names[i].value {
          assert Repeated(c, i);
          OneFlaw(c, i);
          return Duplicate;
        }
      }
    }
    verdict := Ok;
  }

  /** Acceptable field names are valid and all different. */
  lemma {:induction false} SoundIsDistinct(c: Candidate)
    ensures Sound(c, |c.names|)
            <==> (forall i :: 0 <= i < |c.names| ==> Named(c, i))
                 && forall i, j :: 0 <= i < j < |c.names| ==> c.names[i] != c.names[j]
  {
    if Sound(c, |c.names|) {
      forall i, j | 0 <= i < j < |c.names| ensures c.names[i] != c.names[j] {
        assert Named(c, i) && !Repeated(c, i);
      }
    }
  }

  // ----- Registration

  function Registered(cs: seq<Candidate>): (ops: seq<Op<Candidate>>)
    ensures forall i :: 0 <= i < |ops| ==> ops[i].Insert?
  {
    if cs == [] then []
    else
      var c := cs[|cs| - 1];
      Registered(cs[..|cs| - 1]) + if Acceptable(c) then [Insert(c.table.value, c)] else []
  }

  predicate IsNewest(cs: seq<Candidate>, name: string, i: int) {
    && 0 <= i < |cs| && Acceptable(cs[i]) && cs[i].table.value == name
    && forall j :: i < j < |cs| && Acceptable(cs[j]) ==> cs[j].table.value != name
  }

  lemma {:induction false} NewestOnTop(cs: seq<Candidate>, name: string)
    ensures var stack := Stack(Registered(cs), name);
            if stack == [] then forall i :: 0 <= i < |cs| && Acceptable(cs[i]) ==> cs[i].table.value != name
            else exists i :: IsNewest(cs, name, i) && stack[0] == cs[i]
  {
    if cs != [] {
      var last := |cs| - 1;
      var c, front := cs[last], cs[..last];
      NewestOnTop(front, name);
      assert forall i :: 0 <= i < last ==> front[i] == cs[i];
      if Acceptable(c) {
        assert Registered(cs)[..|Registered(front)|] == Registered(front);
      } else {
        assert Registered(cs) == Registered(front);
      }
      if Acceptable(c) && c.table.value == name {
        assert IsNewest(cs, name, last);
      } else if Stack(Registered(front), name) != [] {
        var i :| IsNewest(front, name, i) && Stack(Registered(front), name)[0] == front[i];
        assert IsNewest(cs, name, i);
      }
    }
  }

  /** A table name resolves to the newest acceptable model registered for it, and to nothing if there is none. */
  lemma {:induction false} ResolvesToNewest(hash: string -> nat, size: nat, cs: seq<Candidate>, name: string)
    requires size > 0
    ensures match Found(hash, After(hash, size, Registered(cs)), name)
            case None => forall i :: 0 <= i < |cs| && Acceptable(cs[i]) ==> cs[i].table.value != name
            case Some(c) => exists i :: IsNewest(cs, name, i) && c == cs[i]
  {
    FindsLatest(hash, size, Registered(cs), name);
    NewestOnTop(cs, name);
  }

  lemma {:induction false} RegisteredStep(cs: seq<Candidate>, c: Candidate)
    ensures Registered(cs + [c])
            == if Acceptable(c) then Registered(cs) + [Insert(c.table.value, c)] else Registered(cs)
  {
    assert (cs + [c])[..|cs|] == cs;
  }

  lemma {:induction false} AfterInsert(hash: string -> nat, size: nat, ops: seq<Op<Candidate>>, key: string,
                                       c: Candidate)
    requires size > 0
    ensures var after := After(hash, size, ops + [Insert(key, c)]);
            after == Step(hash, After(hash, size, ops), Insert(key, c))
            && Total(after) == Total(After(hash, size, ops)) + 1
  {
    assert (ops + [Insert(key, c)])[..|ops|] == ops;
    TotalIsLive(hash, size, ops);
    TotalIsLive(hash, size, ops + [Insert(key, c)]);
  }

  /** The registry of a connection; `history` holds every model it was ever given. */
  class Models {
    const byTable: Table<Candidate>
    ghost var history: seq<Candidate>

    ghost predicate Valid()
      reads this, byTable, byTable.buckets, byTable.nodes
    {
      && byTable.Valid()
      && byTable.View() == After(Djb2, byTable.buckets.Length, Registered(history))
    }

    constructor ()
      ensures Valid() && history == [] && byTable.buckets.Length == 32
    {
      byTable := new Table(32);
      history := [];
    }

    /** `corm_register_model`. */
    method Register(c: Candidate) returns (verdict: Verdict)
      requires Valid()
      modifies this, byTable, byTable.buckets
      ensures Valid() && history == old(history) + [c]
      ensures Judged(c, verdict)
      ensures byTable.count == old(byTable.count) + if Acceptable(c) then 1 else 0
    {
      verdict := Validate(c);
      OkIsAcceptable(c, verdict);
      hide *;
      if verdict.Ok? {
        Enter(c);
      } else {
        Pass(c);
      }
    }

    method Enter(c: Candidate)
      requires Valid() && Acceptable(c)
      modifies this, byTable, byTable.buckets
      ensures Valid() && history == old(history) + [c] && byTable.count == old(byTable.count) + 1
    {
      RegisteredStep(history, c);
      AfterInsert(Djb2, byTable.buckets.Length, Registered(history), c.table.value, c);
      byTable.Put(c.table.value, c);
      history := history + [c];
    }

    /** An unacceptable model is not entered. */
    ghost method Pass(c: Candidate)
      requires Valid() && !Acceptable(c)
      modifies this`history
      ensures Valid() && history == old(history) + [c]
    {
      RegisteredStep(history, c);
      history := history + [c];
    }

    /** `corm_find_model`: the newest acceptable model of that table. */
    method FindModel(name: string) returns (found: Option<Candidate>)
      requires Valid()
      ensures found.None? <==>
              forall i :: 0 <= i < |history| && Acceptable(history[i]) ==> history[i].table.value != name
      ensures found.Some? ==> exists i :: IsNewest(history, name, i) && found.value == history[i]
    {
      found := byTable.Find(name);
      ResolvesToNewest(Djb2, byTable.buckets.Length, history, name);
    }
  }
}
