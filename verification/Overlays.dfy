/**
 * Overlays of written fields (src/overlay.ts), and the journals that undo them.
 *
 * An overlay maps an address to the fields written there; a field that is absent is still the
 * parent's. A journal maps the text `address/field` to the value the overlay held before, `None`
 * meaning it held nothing.
 */
module Overlays {
  import opened Options

  datatype Account = Account(balance: Option<string>, nonce: Option<string>, code: Option<string>,
                             storage: map<string, string>)
  type Accounts = map<string, Account>
  const NO_FIELDS := Account(None, None, None, map[])

  datatype Field = Balance | Nonce | Code | Slot(slot: string)
  datatype Place = Place(address: string, field: Field)

  type Journal = map<string, Option<string>>

  // ---- places in an overlay ------------------------------------------------

  function FieldOf(a: Account, f: Field): Option<string> {
    match f
    case Balance => a.balance
    case Nonce => a.nonce
    case Code => a.code
    case Slot(s) => Lookup(a.storage, s)
  }

  function Get(o: Accounts, p: Place): Option<string> {
    if p.address in o then FieldOf(o[p.address], p.field) else None
  }

  /** The account written at an address, or one with no fields. */
  function Open(o: Accounts, address: string): Account {
    if address in o then o[address] else NO_FIELDS
  }

  function Put(o: Accounts, p: Place, v: string): Accounts {
    var a := Open(o, p.address);
    o[p.address := match p.field
                   case Balance => a.(balance := Some(v))
                   case Nonce => a.(nonce := Some(v))
                   case Code => a.(code := Some(v))
                   case Slot(s) => a.(storage := a.storage[s := v])]
  }

  lemma PutGet(o: Accounts, p: Place, v: string, q: Place)
    ensures Get(Put(o, p, v), q) == if p == q then Some(v) else Get(o, q)
  {
  }

  // ---- the text of a journal entry -------------------------------------------

  function FieldText(f: Field): string {
    match f
    case Balance => "balance"
    case Nonce => "nonce"
    case Code => "code"
    case Slot(s) => s
  }

  /** Addresses and slots as `normaliseAddress` and `normaliseWord` leave them. */
  predicate Normal(p: Place) {
    '/' !in p.address && (p.field.Slot? ==> '/' !in p.field.slot && "0x" <= p.field.slot)
  }

  /** The text a journal knows a place by. */
  function Entry(p: Place): string {
    p.address + "/" + FieldText(p.field)
  }

  function UpToSlash(s: string): (r: string)
    ensures |r| <= |s| && r == s[..|r|] && '/' !in r
    ensures |r| < |s| ==> s[|r|] == '/'
  {
    if s == "" || s[0] == '/' then "" else [s[0]] + UpToSlash(s[1..])
  }

  /** What stands before the first slash, and between it and the next; no second piece without a slash. */
  function Split(entry: string): (string, Option<string>) {
    var address := UpToSlash(entry);
    (address, if |address| < |entry| then Some(UpToSlash(entry[|address| + 1..])) else None)
  }

  /** How `undo` reads the second piece: three names, and otherwise a slot. */
  function FieldNamed(name: string): Field {
    if name == "balance" then Balance
    else if name == "nonce" then Nonce
    else if name == "code" then Code
    else Slot(name)
  }

  lemma {:induction false} UpToSlashStops(s: string, rest: string)
    requires '/' !in s
    ensures UpToSlash(s + "/" + rest) == s
    ensures UpToSlash(s) == s
  {
    if s != "" {
      UpToSlashStops(s[1..], rest);
      assert (s + "/" + rest)[1..] == s[1..] + "/" + rest;
    }
  }

  /** Reading an entry back gives the place it was written for, so no two places share an entry. */
  lemma EntryRoundTrip(p: Place)
    requires Normal(p)
    ensures Split(Entry(p)) == (p.address, Some(FieldText(p.field)))
    ensures FieldNamed(FieldText(p.field)) == p.field
  {
    var f := FieldText(p.field);
    UpToSlashStops(p.address, f);
    UpToSlashStops(f, "");
    assert Entry(p)[|p.address| + 1..] == f;
    if p.field.Slot? { assert f[1] == 'x'; }
  }

  function PlaceOf(entry: string): Place {
    var (address, name) := Split(entry);
    Place(address, FieldNamed(if name.Some? then name.value else ""))
  }

  /** Every entry of the journal was made for some normal place. */
  ghost predicate Proper(j: Journal) {
    forall e :: e in j ==> Normal(PlaceOf(e)) && Entry(PlaceOf(e)) == e
  }

  /** The two overlays hold the same value at every place. */
  ghost predicate SameFields(o: Accounts, o': Accounts) {
    forall p: Place | Normal(p) :: Get(o, p) == Get(o', p)
  }

  /** An account is written whole, so an overlay has its balance exactly when it has its nonce. */
  ghost predicate Paired(o: Accounts) {
    forall a | a in o :: o[a].balance.Some? <==> o[a].nonce.Some?
  }

  /** Every address and slot is as the normalisers leave it. */
  ghost predicate Clean(o: Accounts) {
    forall a | a in o :: '/' !in a && forall s | s in o[a].storage :: Normal(Place(a, Slot(s)))
  }

  lemma SameFieldsPaired(o: Accounts, o': Accounts)
    requires SameFields(o, o') && Paired(o) && Clean(o')
    ensures Paired(o')
  {
    forall a | a in o' ensures o'[a].balance.Some? <==> o'[a].nonce.Some? {
      assert Get(o, Place(a, Balance)) == Get(o', Place(a, Balance));
      assert Get(o, Place(a, Nonce)) == Get(o', Place(a, Nonce));
    }
  }

  // ---- undoing ---------------------------------------------------------------

  /** The account with one field as it was, absence included. */
  function WithField(a: Account, f: Field, before: Option<string>): Account {
    match f
    case Balance => a.(balance := before)
    case Nonce => a.(nonce := before)
    case Code => a.(code := before)
    case Slot(s) => a.(storage := if before.Some? then a.storage[s := before.value] else a.storage - {s})
  }

  lemma WithFieldHas(a: Account, f: Field, before: Option<string>, g: Field)
    ensures FieldOf(WithField(a, f, before), g) == if f == g then before else FieldOf(a, g)
  {
  }

  /** `undo` (src/environment.ts): puts one before-value back. */
  function Undo(o: Accounts, entry: string, before: Option<string>): Accounts {
    var p := PlaceOf(entry);
    o[p.address := WithField(Open(o, p.address), p.field, before)]
  }

  lemma UndoGet(o: Accounts, p: Place, before: Option<string>, q: Place)
    requires Normal(p)
    ensures Get(Undo(o, Entry(p), before), q) == if p == q then before else Get(o, q)
  {
    EntryRoundTrip(p);
    WithFieldHas(Open(o, p.address), p.field, before, q.field);
  }

  lemma UndoClean(o: Accounts, p: Place, before: Option<string>)
    requires Normal(p) && Clean(o)
    ensures Clean(Undo(o, Entry(p), before))
  {
    EntryRoundTrip(p);
  }

  /** What is left at one entry once the journals, newest first, are undone over `now`. */
  function Back(now: Option<string>, js: seq<Journal>, entry: string): Option<string>
    decreases |js|
  {
    if js == [] then now
    else Back(if entry in js[0] then js[0][entry] else now, js[1..], entry)
  }

  ghost predicate Undone(o: Accounts, j: Journal, left: set<string>, r: Accounts) {
    forall p: Place | Normal(p) ::
      Get(r, p) == if Entry(p) in j && Entry(p) !in left then j[Entry(p)] else Get(o, p)
  }

  lemma UndoOne(o: Accounts, j: Journal, left: set<string>, r: Accounts, e: string)
    requires Proper(j) && Clean(r) && e in left && left <= j.Keys && Undone(o, j, left, r)
    ensures Clean(Undo(r, e, j[e])) && Undone(o, j, left - {e}, Undo(r, e, j[e]))
  {
    var place := PlaceOf(e);
    UndoClean(r, place, j[e]);
    forall p: Place | Normal(p)
      ensures Get(Undo(r, e, j[e]), p) ==
              if Entry(p) in j && Entry(p) !in left - {e} then j[Entry(p)] else Get(o, p)
    {
      UndoGet(r, place, j[e], p);
      EntryRoundTrip(p);
    }
  }

  /** Undoes one journal. Its entries name different places, so their order does not matter. */
  method UndoJournal(o: Accounts, j: Journal) returns (r: Accounts)
    requires Proper(j) && Clean(o)
    ensures Clean(r)
    ensures forall p: Place | Normal(p) ::
              Get(r, p) == if Entry(p) in j then j[Entry(p)] else Get(o, p)
  {
    r := o;
    var left := j.Keys;
    while left != {}
      invariant left <= j.Keys && Clean(r)
      invariant Undone(o, j, left, r)
    {
      var e :| e in left;
      UndoOne(o, j, left, r, e);
      r := Undo(r, e, j[e]);
      left := left - {e};
    }
  }

  method UndoAll(o: Accounts, js: seq<Journal>) returns (r: Accounts)
    requires Clean(o) && forall j | j in js :: Proper(j)
    ensures Clean(r)
    ensures forall p: Place | Normal(p) :: Get(r, p) == Back(Get(o, p), js, Entry(p))
  {
    r := o;
    for i := 0 to |js|
      invariant Clean(r)
      invariant forall p: Place | Normal(p) ::
                  Back(Get(r, p), js[i..], Entry(p)) == Back(Get(o, p), js, Entry(p))
    {
      ghost var was := r;
      r := UndoJournal(r, js[i]);
      assert js[i..][0] == js[i] && js[i..][1..] == js[i + 1..];
    }
  }
}
