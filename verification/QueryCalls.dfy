/**
 The fluent query interface on values: what each call appends to the clause buffers and parameters, and what
 each call means. The alignment theorems say that the parameters end up in the holes they are meant for.
*/
module QueryCalls {
  import opened Common
  import opened SqlText
  import opened Builder
  import opened Dialects

  datatype Value = Null | Integer(i: int) | Str(s: string) | Bool(b: bool) | Blob(bytes: seq<int>)

  datatype Call =
    | Where(cond: string)
    | OrWhere(cond: string)
    | WhereNull(field: string)
    | WhereNotNull(field: string)
    | WhereIn(field: string, vals: seq<Value>)
    | WhereBetween(field: string, min: Value, max: Value)
    | Bind(v: Value)
    | Set(field: string, v: Value)
    | SetRaw(clause: string)

  /** The buffers of a query object that its calls write. */
  datatype Buffers = Buffers(where: string, setClause: string, params: seq<Value>)

  predicate IdentifierChar(c: char) {
    'a' <= c <= 'z' || 'A' <= c <= 'Z' || '0' <= c <= '9' || c == '_' || c == '.' || c == '*'
  }

  predicate ValidIdentifier(name: string) {
    name != "" && forall i :: 0 <= i < |name| ==> IdentifierChar(name[i])
  }

  // ----- What a call does

  function Continued(text: string, connective: string): string {
    if text == "" then "" else text + connective
  }

  /** `IN (...)` with one placeholder for each value, numbered from `start` on. */
  function InList(bt: Backend, n: nat, start: nat): string {
    Numbered(bt, HoleList(Units(n)), start)
  }

  function Do(bt: Backend, b: Buffers, call: Call): Buffers {
    match call
    case Where(cond) => b.(where := Continued(b.where, " AND ") + cond)
    case OrWhere(cond) => b.(where := Continued(b.where, " OR ") + cond)
    case WhereNull(field) =>
      if !ValidIdentifier(field) then b else b.(where := Continued(b.where, " AND ") + (field + " IS NULL"))
    case WhereNotNull(field) =>
      if !ValidIdentifier(field) then b else b.(where := Continued(b.where, " AND ") + (field + " IS NOT NULL"))
    case WhereIn(field, vals) =>
      if !ValidIdentifier(field) || vals == [] then b
      else b.(where := Continued(b.where, " AND ") + ((field + " IN (") + (InList(bt, |vals|, |b.params|) + ")")),
              params := b.params + vals)
    case WhereBetween(field, min, max) =>
      if !ValidIdentifier(field) then b
      else b.(where := Continued(b.where, " AND ")
                       + ((field + " BETWEEN ")
                          + (Placeholder(bt, |b.params|) + (" AND " + Placeholder(bt, |b.params| + 1)))),
              params := b.params + [min, max])
    case Bind(v) => b.(params := b.params + [v])
    case Set(field, v) =>
      if !ValidIdentifier(field) then b
      else b.(setClause := Continued(b.setClause, ", ") + ((Quoted(bt, field) + " = ") + Placeholder(bt, |b.params|)),
              params := b.params + [v])
    case SetRaw(clause) => b.(setClause := clause)
  }

  function DoAll(bt: Backend, calls: seq<Call>): Buffers {
    if calls == [] then Buffers("", "", [])
    else Do(bt, DoAll(bt, calls[..|calls| - 1]), calls[|calls| - 1])
  }

  // ----- What a call means

  /** A token of a clause with, in a hole, the value meant for it, or None while no value is bound to it. */
  type Tok = Token<Option<Value>>

  /** The intended SET clause `setRaw + set_`, where `setRaw` is a clause given as text, and the intended WHERE
      clause `raw + late`, where `late` begins with the first `WhereIn` or `WhereBetween`. */
  datatype Intent = Intent(setRaw: seq<Tok>, set_: seq<Tok>, raw: seq<Tok>, late: seq<Tok>)

  function Assigned(i: Intent): seq<Tok> {
    i.setRaw + i.set_
  }

  function Somes(vals: seq<Value>): (r: seq<Option<Value>>)
    ensures |r| == |vals| && forall i :: 0 <= i < |r| ==> r[i] == Some(vals[i])
  {
    seq(|vals|, i requires 0 <= i < |vals| => Some(vals[i]))
  }

  /** The tokens of a raw condition: every `?` waits for a value. */
  function Waiting(cond: string): (ts: seq<Tok>)
    ensures |ts| == |cond|
    ensures forall i :: 0 <= i < |ts| ==> ts[i] == if cond[i] == '?' then Hole(None) else Chr(cond[i])
  {
    seq(|cond|, i requires 0 <= i < |cond| => if cond[i] == '?' then Hole(None) else Chr(cond[i]))
  }

  predicate Waits(ts: seq<Tok>) {
    exists i :: 0 <= i < |ts| && ts[i] == Hole(None)
  }

  /** Gives the value to the first hole that waits for one. */
  function GiveFirst(ts: seq<Tok>, v: Value): (us: seq<Tok>)
    ensures |us| == |ts|
  {
    if ts == [] then []
    else if ts[0] == Hole(None) then [Hole(Some(v))] + ts[1..]
    else [ts[0]] + GiveFirst(ts[1..], v)
  }

  function Link(ts: seq<Tok>, connective: string): seq<Tok> {
    if ts == [] then [] else Text(connective)
  }

  /** Appends to the WHERE clause. */
  function Append(i: Intent, connective: string, ts: seq<Tok>): Intent {
    if i.late == [] then i.(raw := i.raw + (Link(i.raw, connective) + ts))
    else i.(late := i.late + (Text(connective) + ts))
  }

  function AppendLate(i: Intent, ts: seq<Tok>): Intent {
    i.(late := i.late + (Link(i.raw + i.late, " AND ") + ts))
  }

  function Mean(bt: Backend, i: Intent, call: Call): Intent {
    match call
    case Where(cond) => Append(i, " AND ", Waiting(cond))
    case OrWhere(cond) => Append(i, " OR ", Waiting(cond))
    case WhereNull(field) => if !ValidIdentifier(field) then i else Append(i, " AND ", Text(field + " IS NULL"))
    case WhereNotNull(field) => if !ValidIdentifier(field) then i else Append(i, " AND ", Text(field + " IS NOT NULL"))
    case WhereIn(field, vals) =>
      if !ValidIdentifier(field) || vals == [] then i
      else AppendLate(i, Text(field + " IN (") + (HoleList(Somes(vals)) + Text(")")))
    case WhereBetween(field, min, max) =>
      if !ValidIdentifier(field) then i
      else AppendLate(i, Text(field + " BETWEEN ") + ([Hole(Some(min))] + (Text(" AND ") + [Hole(Some(max))])))
    case Bind(v) =>
      if Waits(i.setRaw) then i.(setRaw := GiveFirst(i.setRaw, v))
      else if Waits(i.raw) then i.(raw := GiveFirst(i.raw, v))
      else i.(late := GiveFirst(i.late, v))
    case Set(field, v) =>
      if !ValidIdentifier(field) then i
      else i.(set_ := i.set_ + (Link(Assigned(i), ", ") + (Text(Quoted(bt, field) + " = ") + [Hole(Some(v))])))
    case SetRaw(clause) => i.(setRaw := Waiting(clause), set_ := [])
  }

  function MeanAll(bt: Backend, calls: seq<Call>): Intent {
    if calls == [] then Intent([], [], [], [])
    else Mean(bt, MeanAll(bt, calls[..|calls| - 1]), calls[|calls| - 1])
  }

  // ----- The discipline

  function HolesOf(i: Intent): seq<Option<Value>> {
    SetHoles(i) + (Holes(i.raw) + Holes(i.late))
  }

  function SetHoles(i: Intent): seq<Option<Value>> {
    Holes(i.setRaw) + Holes(i.set_)
  }

  predicate Pending(hs: seq<Option<Value>>) {
    exists k :: 0 <= k < |hs| && hs[k] == None
  }

  predicate AnyGiven(hs: seq<Option<Value>>) {
    exists k :: 0 <= k < |hs| && hs[k].Some?
  }

  /** SET values are bound before WHERE values, and every raw condition is bound before the next helper call
      that carries values. On Postgres question marks come before every helper. */
  predicate Allowed(bt: Backend, i: Intent, call: Call) {
    match call
    case Where(cond) => bt.Postgres? ==> Marks(cond) == 0 || i.late == []
    case OrWhere(cond) => bt.Postgres? ==> Marks(cond) == 0 || i.late == []
    case WhereNull(_) => true
    case WhereNotNull(_) => true
    case WhereIn(field, vals) => ValidIdentifier(field) && vals != [] ==> !Pending(HolesOf(i))
    case WhereBetween(field, _, _) => ValidIdentifier(field) ==> !Pending(HolesOf(i))
    case Bind(_) => Pending(HolesOf(i))
    case Set(field, _) =>
      ValidIdentifier(field) ==> !Pending(Holes(i.setRaw)) && !AnyGiven(Holes(i.raw) + Holes(i.late))
    case SetRaw(_) => !AnyGiven(HolesOf(i))
  }

  predicate Disciplined(bt: Backend, calls: seq<Call>) {
    calls == [] ||
    var front := calls[..|calls| - 1];
    Disciplined(bt, front) && Allowed(bt, MeanAll(bt, front), calls[|calls| - 1])
  }

  // ----- The invariant

  /** The bound parameters are the values meant for the first holes; the other holes still wait. */
  predicate Aligned(hs: seq<Option<Value>>, params: seq<Value>) {
    && |params| <= |hs|
    && (forall k :: 0 <= k < |params| ==> hs[k] == Some(params[k]))
    && (forall k :: |params| <= k < |hs| ==> hs[k] == None)
  }

  /** Only characters that are no question marks, and holes. */
  predicate Markless(ts: seq<Tok>) {
    forall i :: 0 <= i < |ts| ==> !ts[i].Ident? && (ts[i].Chr? ==> ts[i].c != '?')
  }

  /** The holes of the SET clause come first in the numbers that a helper writes; `?` bears no number. */
  function Base(bt: Backend, i: Intent): nat {
    if bt.Postgres? then |SetHoles(i)| else 0
  }

  /** The buffer for an intended clause: its raw holes as `?`, and those of helpers as the dialect's
      placeholders. */
  function ClauseText(bt: Backend, base: nat, raw: seq<Tok>, late: seq<Tok>): string {
    Numbered(Sqlite, raw, 0) + Numbered(bt, late, base + |Holes(raw)|)
  }

  /** The buffers hold the intended clauses. */
  predicate Shaped(bt: Backend, b: Buffers, i: Intent) {
    && b.where == ClauseText(bt, Base(bt, i), i.raw, i.late)
    && b.setClause == ClauseText(bt, 0, i.setRaw, i.set_)
    && Markless(i.setRaw) && Markless(i.set_) && Markless(i.raw) && Markless(i.late)
  }

  /** And the parameters are the values bound so far, in the order of the holes. */
  predicate Faithful(bt: Backend, b: Buffers, i: Intent) {
    && Shaped(bt, b, i)
    && Aligned(HolesOf(i), b.params)
    && !Pending(Holes(i.set_)) && (bt.Postgres? ==> !Pending(Holes(i.late)))
  }
}
