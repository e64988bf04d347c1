/** Importing many users in one request, each row under its own savepoint. */
module BulkImport {
  import opened Prelude

  /** The keys of one row; None is an absent value. */
  datatype Item = Item(name: string, externalId: Option<string>, email: Option<string>)

  /** What the two unique indexes of the users table see of an organization's user. */
  datatype UserRow = UserRow(name: string, externalId: Option<string>, email: Option<string>)

  datatype Why = LimitReached | DuplicateExternalId | DuplicateEmail | Rejected

  datatype Error = Error(row: nat, name: string, why: Why)

  /** `strip` and `lower` of Python strings, and whether the database refuses a row for a reason
      other than the unique indexes. */
  datatype Env = Env(strip: string -> string, lower: string -> string, refused: nat -> bool)

  function ExternalKey(env: Env, item: Item): string {
    if item.externalId.Some? && item.externalId.value != "" then env.strip(item.externalId.value) else ""
  }

  function EmailKey(env: Env, item: Item): string {
    if item.email.Some? && item.email.value != "" then env.lower(item.email.value) else ""
  }

  /** The stored external id is not stripped. */
  function RowOf(env: Env, item: Item): UserRow {
    UserRow(env.strip(item.name), item.externalId,
            if EmailKey(env, item) == "" then None else Some(EmailKey(env, item)))
  }

  /** The unique indexes; absent values never clash. */
  predicate Clashes(users: seq<UserRow>, row: UserRow) {
    exists u | u in users ::
      (row.externalId.Some? && u.externalId == row.externalId) || (row.email.Some? && u.email == row.email)
  }

  datatype Progress = Progress(
    users: seq<UserRow>, imported: nat, errors: seq<Error>, seenExternal: set<string>, seenEmail: set<string>)

  function Failed(p: Progress, i: nat, item: Item, why: Why): Progress {
    p.(errors := p.errors + [Error(i, item.name, why)])
  }

  function Noted(seen: set<string>, key: string): set<string> { if key == "" then seen else seen + {key} }

  /** Why a row is turned down, checked in this order; None when it goes in. */
  function Refusal(env: Env, p: Progress, i: nat, item: Item, slots: nat): Option<Why> {
    if p.imported >= slots then Some(LimitReached)
    else if ExternalKey(env, item) != "" && ExternalKey(env, item) in p.seenExternal then Some(DuplicateExternalId)
    else if EmailKey(env, item) != "" && EmailKey(env, item) in p.seenEmail then Some(DuplicateEmail)
    else if env.refused(i) || Clashes(p.users, RowOf(env, item)) then Some(Rejected)
    else None
  }

  function Inserted(env: Env, p: Progress, item: Item): Progress {
    Progress(p.users + [RowOf(env, item)], p.imported + 1, p.errors,
             Noted(p.seenExternal, ExternalKey(env, item)), Noted(p.seenEmail, EmailKey(env, item)))
  }

  /** One round of the loop. */
  function ImportRow(env: Env, p: Progress, i: nat, item: Item, slots: nat): Progress {
    match Refusal(env, p, i, item, slots)
    case Some(why) => Failed(p, i, item, why)
    case None => Inserted(env, p, item)
  }

  function ImportAll(env: Env, users: seq<UserRow>, items: seq<Item>, slots: nat): Progress {
    if items == [] then Progress(users, 0, [], {}, {})
    else
      var n := |items| - 1;
      ImportRow(env, ImportAll(env, users, items[..n], slots), n, items[n], slots)
  }

  function Slots(users: seq<UserRow>, maxUsers: int): nat { Max(0, maxUsers - |users|) }

  class Organization {
    var users: seq<UserRow>
    const maxUsers: int

    constructor (users: seq<UserRow>, maxUsers: int)
      ensures this.users == users && this.maxUsers == maxUsers
    {
      this.users, this.maxUsers := users, maxUsers;
    }

    /** `begin_nested` around add and flush: a failure rolls back to the savepoint. */
    method TryInsert(row: UserRow, refused: bool) returns (ok: bool)
      modifies this
      ensures ok <==> !refused && !Clashes(old(users), row)
      ensures users == if ok then old(users) + [row] else old(users)
    {
      var savepoint := users;
      users := users + [row];
      ok := !refused && !Clashes(savepoint, row);
      if !ok { users := savepoint; }
    }

    method Import(env: Env, items: seq<Item>) returns (imported: nat, failed: nat, errors: seq<Error>)
      modifies this
      ensures var p := ImportAll(env, old(users), items, Slots(old(users), maxUsers));
        users == p.users && imported == p.imported && errors == p.errors && failed == |errors|
    {
      imported, errors := 0, [];
      var slots := Max(0, maxUsers - |users|);
      var seenExternal: set<string>, seenEmail: set<string> := {}, {};
      for i := 0 to |items|
        invariant Progress(users, imported, errors, seenExternal, seenEmail)
                  == ImportAll(env, old(users), items[..i], slots)
      {
        assert items[..i + 1][..i] == items[..i];
        var item := items[i];
        var ext, mail := ExternalKey(env, item), EmailKey(env, item);
        if imported >= slots {
          errors := errors + [Error(i, item.name, LimitReached)];
        } else if ext != "" && ext in seenExternal {
          errors := errors + [Error(i, item.name, DuplicateExternalId)];
        } else if mail != "" && mail in seenEmail {
          errors := errors + [Error(i, item.name, DuplicateEmail)];
        } else {
          var ok := TryInsert(RowOf(env, item), env.refused(i));
          if ok {
            imported := imported + 1;
            if ext != "" { seenExternal := seenExternal + {ext}; }
            if mail != "" { seenEmail := seenEmail + {mail}; }
          } else {
            errors := errors + [Error(i, item.name, Rejected)];
          }
        }
      }
      assert items[..|items|] == items;
      failed := |errors|;
    }
  }

  /* ---------- conservation ---------- */

  predicate Errs(errors: seq<Error>, i: nat) { exists e | e in errors :: e.row == i }

  /** The rows that are not in the error list, in order. */
  function ImportedRows(n: nat, errors: seq<Error>): seq<nat> {
    if n == 0 then [] else ImportedRows(n - 1, errors) + if Errs(errors, n - 1) then [] else [n - 1]
  }

  function RowsOf(env: Env, items: seq<Item>, at: seq<nat>): seq<UserRow>
    requires forall i | i in at :: i < |items|
  {
    seq(|at|, k requires 0 <= k < |at| => assert at[k] in at; RowOf(env, items[at[k]]))
  }

  lemma {:induction false} ImportedRowsMeaning(n: nat, errors: seq<Error>)
    ensures forall i: nat :: i in ImportedRows(n, errors) <==> i < n && !Errs(errors, i)
    ensures Distinct(ImportedRows(n, errors))
  {
    if n > 0 {
      ImportedRowsMeaning(n - 1, errors);
      var before := ImportedRows(n - 1, errors);
      assert forall k | 0 <= k < |before| :: before[k] in before;
    }
  }

  /** Errors about later rows do not change which earlier rows were imported. */
  lemma {:induction false} LaterErrorsDoNotMatter(n: nat, errors: seq<Error>, e: Error)
    requires e.row >= n
    ensures ImportedRows(n, errors + [e]) == ImportedRows(n, errors)
  {
    if n > 0 {
      LaterErrorsDoNotMatter(n - 1, errors, e);
      assert Errs(errors + [e], n - 1) <==> Errs(errors, n - 1) by {
        assert forall x :: x in errors + [e] <==> x in errors || x == e;
      }
    }
  }

  /** The state after some rows: counted, in order, and nothing but the imported rows added. */
  ghost predicate Conserved(env: Env, users: seq<UserRow>, items: seq<Item>, p: Progress) {
    && p.imported + |p.errors| == |items|
    && (forall k | 0 <= k < |p.errors| :: p.errors[k].row < |items|)
    && (forall j, k | 0 <= j < k < |p.errors| :: p.errors[j].row < p.errors[k].row)
    && (forall i | i in ImportedRows(|items|, p.errors) :: i < |items|)
    && p.users == users + RowsOf(env, items, ImportedRows(|items|, p.errors))
    && p.imported == |ImportedRows(|items|, p.errors)|
  }

  lemma RowsOfPrefix(env: Env, items: seq<Item>, item: Item, at: seq<nat>)
    requires forall i | i in at :: i < |items|
    ensures RowsOf(env, items + [item], at) == RowsOf(env, items, at)
  {
    assert forall k | 0 <= k < |at| :: at[k] in at;
  }

  lemma FailureConserves(env: Env, users: seq<UserRow>, items: seq<Item>, p: Progress, item: Item, why: Why)
    requires Conserved(env, users, items, p)
    ensures Conserved(env, users, items + [item], Failed(p, |items|, item, why))
  {
    var n, e := |items|, Error(|items|, item.name, why);
    var errors := p.errors + [e];
    assert e in errors && Errs(errors, n);
    LaterErrorsDoNotMatter(n, p.errors, e);
    assert ImportedRows(n + 1, errors) == ImportedRows(n, p.errors);
    RowsOfPrefix(env, items, item, ImportedRows(n, p.errors));
  }

  lemma InsertionConserves(env: Env, users: seq<UserRow>, items: seq<Item>, p: Progress, item: Item)
    requires Conserved(env, users, items, p)
    ensures Conserved(env, users, items + [item], Inserted(env, p, item))
  {
    var n := |items|;
    assert !Errs(p.errors, n);
    var at := ImportedRows(n, p.errors);
    assert ImportedRows(n + 1, p.errors) == at + [n];
    RowsOfPrefix(env, items, item, at);
    assert RowsOf(env, items + [item], at + [n]) == RowsOf(env, items + [item], at) + [RowOf(env, item)];
  }

  lemma RowConserves(env: Env, users: seq<UserRow>, items: seq<Item>, p: Progress, item: Item, slots: nat)
    requires Conserved(env, users, items, p)
    ensures Conserved(env, users, items + [item], ImportRow(env, p, |items|, item, slots))
  {
    match Refusal(env, p, |items|, item, slots)
    case Some(why) => FailureConserves(env, users, items, p, item, why);
    case None => InsertionConserves(env, users, items, p, item);
  }

  /** Every row index is either imported or in the error list once, never both; the users grow by
      exactly the imported rows, in order, and a failed row leaves the earlier ones as they were. */
  lemma {:induction false} ImportConserves(env: Env, users: seq<UserRow>, items: seq<Item>, slots: nat)
    ensures Conserved(env, users, items, ImportAll(env, users, items, slots))
  {
    if items == [] {
      assert RowsOf(env, items, []) == [];
    } else {
      var n := |items| - 1;
      ImportConserves(env, users, items[..n], slots);
      RowConserves(env, users, items[..n], ImportAll(env, users, items[..n], slots), items[n], slots);
      assert items == items[..n] + [items[n]];
    }
  }

  lemma {:induction false} ImportWithinSlots(env: Env, users: seq<UserRow>, items: seq<Item>, slots: nat)
    ensures var p := ImportAll(env, users, items, slots);
      p.imported <= slots && |p.users| == |users| + p.imported
  {
    if items != [] { ImportWithinSlots(env, users, items[..|items| - 1], slots); }
  }

  /** The organization never ends above its limit, unless it started there. */
  lemma ImportRespectsLimit(env: Env, users: seq<UserRow>, items: seq<Item>, maxUsers: int)
    ensures var p := ImportAll(env, users, items, Slots(users, maxUsers));
      |p.users| == |users| + p.imported && |p.users| <= Max(|users|, maxUsers)
  {
    ImportWithinSlots(env, users, items, Slots(users, maxUsers));
  }

  /* ---------- distinct keys ---------- */

  /** The keys seen are those of the imported rows. */
  ghost predicate SeenOk(env: Env, items: seq<Item>, p: Progress) {
    forall i: nat | i < |items| && !Errs(p.errors, i) ::
      && (ExternalKey(env, items[i]) != "" ==> ExternalKey(env, items[i]) in p.seenExternal)
      && (EmailKey(env, items[i]) != "" ==> EmailKey(env, items[i]) in p.seenEmail)
  }

  /** Imported rows have pairwise distinct non-empty keys. */
  ghost predicate KeysDiffer(env: Env, items: seq<Item>, errors: seq<Error>) {
    forall i: nat, j: nat | i < j < |items| && !Errs(errors, i) && !Errs(errors, j) ::
      && (ExternalKey(env, items[i]) != "" ==> ExternalKey(env, items[i]) != ExternalKey(env, items[j]))
      && (EmailKey(env, items[i]) != "" ==> EmailKey(env, items[i]) != EmailKey(env, items[j]))
  }

  lemma RowKeepsKeysDistinct(env: Env, items: seq<Item>, p: Progress, item: Item, slots: nat)
    requires SeenOk(env, items, p) && KeysDiffer(env, items, p.errors)
    ensures var p' := ImportRow(env, p, |items|, item, slots);
      SeenOk(env, items + [item], p') && KeysDiffer(env, items + [item], p'.errors)
  {
    var p', n := ImportRow(env, p, |items|, item, slots), |items|;
    var all := items + [item];
    match Refusal(env, p, n, item, slots)
    case Some(why) =>
      assert p'.errors[|p.errors|] in p'.errors && Errs(p'.errors, n);
      forall i: nat | i < n && !Errs(p'.errors, i)
        ensures !Errs(p.errors, i) && all[i] == items[i]
      {
        assert forall e | e in p.errors :: e in p'.errors;
      }
    case None =>
      forall i: nat | i < n
        ensures all[i] == items[i]
      {
      }
  }

  lemma {:induction false} ImportKeepsKeysDistinct(env: Env, users: seq<UserRow>, items: seq<Item>, slots: nat)
    ensures var p := ImportAll(env, users, items, slots); SeenOk(env, items, p) && KeysDiffer(env, items, p.errors)
  {
    if items != [] {
      var n := |items| - 1;
      ImportKeepsKeysDistinct(env, users, items[..n], slots);
      RowKeepsKeysDistinct(env, items[..n], ImportAll(env, users, items[..n], slots), items[n], slots);
      assert items == items[..n] + [items[n]];
    }
  }

  /* ---------- why a row fails ---------- */

  ghost predicate ImportedWithExternal(env: Env, items: seq<Item>, errors: seq<Error>, key: string, before: nat) {
    exists i: nat :: i < before && i < |items| && !Errs(errors, i) && ExternalKey(env, items[i]) == key
  }

  ghost predicate ImportedWithEmail(env: Env, items: seq<Item>, errors: seq<Error>, key: string, before: nat) {
    exists i: nat :: i < before && i < |items| && !Errs(errors, i) && EmailKey(env, items[i]) == key
  }

  /** Every key seen is the key of some imported row. */
  ghost predicate SeenOnlyImported(env: Env, items: seq<Item>, p: Progress) {
    && (forall key | key in p.seenExternal :: ImportedWithExternal(env, items, p.errors, key, |items|))
    && (forall key | key in p.seenEmail :: ImportedWithEmail(env, items, p.errors, key, |items|))
  }

  /** An error names its row, and its reason is true of it. */
  ghost predicate ErrorTrue(env: Env, items: seq<Item>, p: Progress, slots: nat, e: Error) {
    && e.row < |items| && e.name == items[e.row].name
    && match e.why
       case LimitReached => p.imported >= slots
       case DuplicateExternalId => ImportedWithExternal(env, items, p.errors, ExternalKey(env, items[e.row]), e.row)
       case DuplicateEmail => ImportedWithEmail(env, items, p.errors, EmailKey(env, items[e.row]), e.row)
       case Rejected => env.refused(e.row) || Clashes(p.users, RowOf(env, items[e.row]))
  }

  ghost predicate ErrorsTrue(env: Env, items: seq<Item>, p: Progress, slots: nat) {
    forall e | e in p.errors :: ErrorTrue(env, items, p, slots, e)
  }

  /** A further row changes nothing about the earlier ones. */
  lemma EarlierStays(env: Env, items: seq<Item>, p: Progress, item: Item, slots: nat)
    requires forall e | e in p.errors :: e.row < |items|
    ensures var p', all := ImportRow(env, p, |items|, item, slots), items + [item];
      && (forall i | 0 <= i < |items| :: Errs(p'.errors, i) <==> Errs(p.errors, i))
      && (Errs(p'.errors, |items|) <==> Refusal(env, p, |items|, item, slots).Some?)
      && (forall key, b: nat | b <= |items| && ImportedWithExternal(env, items, p.errors, key, b) ::
            ImportedWithExternal(env, all, p'.errors, key, b))
      && (forall key, b: nat | b <= |items| && ImportedWithEmail(env, items, p.errors, key, b) ::
            ImportedWithEmail(env, all, p'.errors, key, b))
  {
    var p', all, n := ImportRow(env, p, |items|, item, slots), items + [item], |items|;
    if Refusal(env, p, n, item, slots).Some? {
      var e := p'.errors[|p.errors|];
      assert p'.errors == p.errors + [e] && e in p'.errors && e.row == n;
      assert forall x :: x in p'.errors <==> x in p.errors || x == e;
    }
    forall key, b: nat | b <= n && ImportedWithExternal(env, items, p.errors, key, b)
      ensures ImportedWithExternal(env, all, p'.errors, key, b)
    {
      var i: nat :| i < b && i < |items| && !Errs(p.errors, i) && ExternalKey(env, items[i]) == key;
      assert all[i] == items[i];
    }
    forall key, b: nat | b <= n && ImportedWithEmail(env, items, p.errors, key, b)
      ensures ImportedWithEmail(env, all, p'.errors, key, b)
    {
      var i: nat :| i < b && i < |items| && !Errs(p.errors, i) && EmailKey(env, items[i]) == key;
      assert all[i] == items[i];
    }
  }

  lemma RowKeepsSeen(env: Env, items: seq<Item>, p: Progress, item: Item, slots: nat)
    requires (forall e | e in p.errors :: e.row < |items|) && SeenOnlyImported(env, items, p)
    ensures SeenOnlyImported(env, items + [item], ImportRow(env, p, |items|, item, slots))
  {
    var p', all, n := ImportRow(env, p, |items|, item, slots), items + [item], |items|;
    EarlierStays(env, items, p, item, slots);
    assert all[n] == item;
    forall key | key in p'.seenExternal
      ensures ImportedWithExternal(env, all, p'.errors, key, n + 1)
    {
      if key in p.seenExternal { assert ImportedWithExternal(env, all, p'.errors, key, n); }
    }
    forall key | key in p'.seenEmail
      ensures ImportedWithEmail(env, all, p'.errors, key, n + 1)
    {
      if key in p.seenEmail { assert ImportedWithEmail(env, all, p'.errors, key, n); }
    }
  }

  lemma RowKeepsErrorsTrue(env: Env, items: seq<Item>, p: Progress, item: Item, slots: nat)
    requires SeenOnlyImported(env, items, p) && ErrorsTrue(env, items, p, slots)
    ensures ErrorsTrue(env, items + [item], ImportRow(env, p, |items|, item, slots), slots)
  {
    var p', all, n := ImportRow(env, p, |items|, item, slots), items + [item], |items|;
    EarlierStays(env, items, p, item, slots);
    forall e | e in p'.errors
      ensures ErrorTrue(env, all, p', slots, e)
    {
      if e in p.errors {
        assert ErrorTrue(env, items, p, slots, e) && all[e.row] == items[e.row];
        assert forall u | u in p.users :: u in p'.users;
      } else {
        assert e.row == n && all[n] == item;
      }
    }
  }

  lemma RowKeepsTruth(env: Env, items: seq<Item>, p: Progress, item: Item, slots: nat)
    requires SeenOnlyImported(env, items, p) && ErrorsTrue(env, items, p, slots)
    ensures var p' := ImportRow(env, p, |items|, item, slots);
      SeenOnlyImported(env, items + [item], p') && ErrorsTrue(env, items + [item], p', slots)
  {
    RowKeepsSeen(env, items, p, item, slots);
    RowKeepsErrorsTrue(env, items, p, item, slots);
  }

  /** Every error is true: a duplicate repeats the key of an earlier imported row, a clash is there
      to see, and the limit was reached. */
  lemma {:induction false} ImportErrorsAreTrue(env: Env, users: seq<UserRow>, items: seq<Item>, slots: nat)
    ensures var p := ImportAll(env, users, items, slots);
      SeenOnlyImported(env, items, p) && ErrorsTrue(env, items, p, slots)
  {
    if items != [] {
      var n := |items| - 1;
      var before := ImportAll(env, users, items[..n], slots);
      ImportErrorsAreTrue(env, users, items[..n], slots);
      RowKeepsTruth(env, items[..n], before, items[n], slots);
      assert items == items[..n] + [items[n]];
    }
  }

  /** After the import no two users share an external id or an email, if none did before. */
  predicate Unique(users: seq<UserRow>) {
    forall i, j | 0 <= i < j < |users| ::
      && (users[i].externalId.Some? ==> users[i].externalId != users[j].externalId)
      && (users[i].email.Some? ==> users[i].email != users[j].email)
  }

  lemma {:induction false} ImportKeepsUnique(env: Env, users: seq<UserRow>, items: seq<Item>, slots: nat)
    requires Unique(users)
    ensures Unique(ImportAll(env, users, items, slots).users)
  {
    if items != [] {
      var n := |items| - 1;
      ImportKeepsUnique(env, users, items[..n], slots);
      var before := ImportAll(env, users, items[..n], slots);
      assert forall i | 0 <= i < |before.users| :: before.users[i] in before.users;
    }
  }

  /* ---------- exactly why and exactly what ---------- */

  /** Who is turned down for the limit finds the organization full, and only then. */
  lemma FullWhenLimited(env: Env, users: seq<UserRow>, items: seq<Item>, maxUsers: int)
    ensures var p := ImportAll(env, users, items, Slots(users, maxUsers));
      (exists e :: e in p.errors && e.why == LimitReached) ==> |p.users| >= maxUsers
  {
    var slots := Slots(users, maxUsers);
    var p := ImportAll(env, users, items, slots);
    ImportErrorsAreTrue(env, users, items, slots);
    ImportWithinSlots(env, users, items, slots);
    if e :| e in p.errors && e.why == LimitReached {
      assert ErrorTrue(env, items, p, slots, e);
    }
  }

  /** The users added: each imported row with its name stripped, its external id as given, and its email
      lower-cased, or none when it is empty. */
  lemma AddedUsers(env: Env, users: seq<UserRow>, items: seq<Item>, slots: nat, k: nat)
    requires k < |ImportedRows(|items|, ImportAll(env, users, items, slots).errors)|
    ensures var p := ImportAll(env, users, items, slots);
      var i := ImportedRows(|items|, p.errors)[k];
      && i < |items| && |users| + k < |p.users| && p.users[..|users|] == users
      && var item, added := items[i], p.users[|users| + k];
         && added.name == env.strip(item.name) && added.externalId == item.externalId
         && added.email == (if item.email.None? || item.email.value == "" || env.lower(item.email.value) == "" then None
                            else Some(env.lower(item.email.value)))
  {
    ImportConserves(env, users, items, slots);
    var at := ImportedRows(|items|, ImportAll(env, users, items, slots).errors);
    assert at[k] in at;
  }

  /** The reasons are checked in order: the limit by the number imported before the row, then the external id,
      then the email, then the database. */
  ghost predicate ReasonFirst(env: Env, items: seq<Item>, errors: seq<Error>, slots: nat, e: Error) {
    && e.row < |items|
    && (e.why == LimitReached <==> |ImportedRows(e.row, errors)| >= slots)
    && (e.why == DuplicateEmail || e.why == Rejected ==>
          ExternalKey(env, items[e.row]) == ""
          || !ImportedWithExternal(env, items, errors, ExternalKey(env, items[e.row]), e.row))
    && (e.why == Rejected ==>
          EmailKey(env, items[e.row]) == ""
          || !ImportedWithEmail(env, items, errors, EmailKey(env, items[e.row]), e.row))
  }

  ghost predicate ReasonsFirst(env: Env, items: seq<Item>, p: Progress, slots: nat) {
    forall e | e in p.errors :: ReasonFirst(env, items, p.errors, slots, e)
  }

  /** Nothing about earlier rows depends on a later error. */
  lemma LaterErrorKeepsReason(
    env: Env, items: seq<Item>, item: Item, errors: seq<Error>, slots: nat, e: Error, x: Error)
    requires ReasonFirst(env, items, errors, slots, e) && x.row == |items|
    ensures ReasonFirst(env, items + [item], errors + [x], slots, e)
  {
    LaterErrorsDoNotMatter(e.row, errors, x);
    assert forall i | 0 <= i < |items| :: Errs(errors + [x], i) <==> Errs(errors, i) by {
      assert forall y :: y in errors + [x] <==> y in errors || y == x;
    }
    assert forall i | 0 <= i < |items| :: (items + [item])[i] == items[i];
  }

  lemma MoreItemsKeepReason(env: Env, items: seq<Item>, item: Item, errors: seq<Error>, slots: nat, e: Error)
    requires ReasonFirst(env, items, errors, slots, e)
    ensures ReasonFirst(env, items + [item], errors, slots, e)
  {
    assert forall i | 0 <= i < |items| :: (items + [item])[i] == items[i];
  }

  lemma NewReasonIsFirst(env: Env, users: seq<UserRow>, items: seq<Item>, p: Progress, item: Item, slots: nat, x: Error)
    requires Conserved(env, users, items, p) && SeenOk(env, items, p)
    requires Refusal(env, p, |items|, item, slots) == Some(x.why) && x.row == |items|
    ensures ReasonFirst(env, items + [item], p.errors + [x], slots, x)
  {
    var n, all, errors := |items|, items + [item], p.errors + [x];
    LaterErrorsDoNotMatter(n, p.errors, x);
    assert all[n] == item && forall i | 0 <= i < n :: all[i] == items[i];
    assert forall i | 0 <= i < n :: Errs(errors, i) <==> Errs(p.errors, i) by {
      assert forall y :: y in errors <==> y in p.errors || y == x;
    }
  }

  lemma RowKeepsReasons(env: Env, users: seq<UserRow>, items: seq<Item>, p: Progress, item: Item, slots: nat)
    requires Conserved(env, users, items, p) && SeenOk(env, items, p) && ReasonsFirst(env, items, p, slots)
    ensures ReasonsFirst(env, items + [item], ImportRow(env, p, |items|, item, slots), slots)
  {
    var n := |items|;
    var p' := ImportRow(env, p, n, item, slots);
    forall e | e in p'.errors
      ensures ReasonFirst(env, items + [item], p'.errors, slots, e)
    {
      if Refusal(env, p, n, item, slots).Some? {
        var x := Error(n, item.name, Refusal(env, p, n, item, slots).value);
        if e in p.errors {
          LaterErrorKeepsReason(env, items, item, p.errors, slots, e, x);
        } else {
          NewReasonIsFirst(env, users, items, p, item, slots, x);
        }
      } else {
        MoreItemsKeepReason(env, items, item, p.errors, slots, e);
      }
    }
  }

  lemma {:induction false} ReasonsAreFirst(env: Env, users: seq<UserRow>, items: seq<Item>, slots: nat)
    ensures ReasonsFirst(env, items, ImportAll(env, users, items, slots), slots)
  {
    if items != [] {
      var n := |items| - 1;
      ReasonsAreFirst(env, users, items[..n], slots);
      ImportConserves(env, users, items[..n], slots);
      ImportKeepsKeysDistinct(env, users, items[..n], slots);
      RowKeepsReasons(env, users, items[..n], ImportAll(env, users, items[..n], slots), items[n], slots);
      assert items == items[..n] + [items[n]];
    }
  }

  predicate Given(o: Option<string>) { o.Some? && o.value != "" }

  /** Two imported rows never share a stripped external id or a lower-cased email. */
  lemma StrippedKeysDiffer(env: Env, users: seq<UserRow>, items: seq<Item>, slots: nat, i: nat, j: nat)
    requires i < j < |items| && !Errs(ImportAll(env, users, items, slots).errors, i)
    requires !Errs(ImportAll(env, users, items, slots).errors, j)
    ensures Given(items[i].externalId) && Given(items[j].externalId) && env.strip(items[i].externalId.value) != "" ==>
              env.strip(items[i].externalId.value) != env.strip(items[j].externalId.value)
    ensures Given(items[i].email) && Given(items[j].email) && env.lower(items[i].email.value) != "" ==>
              env.lower(items[i].email.value) != env.lower(items[j].email.value)
  {
    ImportKeepsKeysDistinct(env, users, items, slots);
  }
}
