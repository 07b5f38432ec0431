/** The daemon credentials file: PATs by (origin, account), and each origin's default account. */
module DaemonStore {
  import opened Wrappers
  import opened Text

  const DEFAULT_ACCOUNT := "_default"

  /** An absent optional member is the empty string. */
  datatype Entry = Entry(
    pat: string, serverUrl: string, gatewayUrl: string, registeredAt: int,
    sub: string, accountId: string, email: string)

  datatype Named = Named(name: string, entry: Entry)

  /** One origin's accounts, in the order their keys were added. */
  type Accounts = seq<Named>

  datatype Credentials = Credentials(origins: map<string, Accounts>, defaults: map<string, string>)

  const EMPTY := Credentials(map[], map[])

  /** What is on disk. Anything that is not a document with an `origins` object reads as empty. */
  datatype Document = Missing | Malformed | Stored(credentials: Credentials)

  function Read(d: Document): Credentials {
    if d.Stored? then d.credentials else EMPTY
  }

  function AccountKey(sub: string): string {
    var s := Trim(sub);
    if s == "" then DEFAULT_ACCOUNT else s
  }

  // ---------------------------------------------------------------- One origin's accounts

  function Find(accounts: Accounts, name: string): Option<Entry> {
    if accounts == [] then None
    else if accounts[0].name == name then Some(accounts[0].entry)
    else Find(accounts[1..], name)
  }

  /** A key keeps its place when it is written again; a new one goes last. */
  function Put(accounts: Accounts, name: string, entry: Entry): Accounts {
    if accounts == [] then [Named(name, entry)]
    else if accounts[0].name == name then [Named(name, entry)] + accounts[1..]
    else [accounts[0]] + Put(accounts[1..], name, entry)
  }

  function Drop(accounts: Accounts, name: string): Accounts {
    if accounts == [] then []
    else if accounts[0].name == name then accounts[1..]
    else [accounts[0]] + Drop(accounts[1..], name)
  }

  predicate Has(accounts: Accounts, name: string) {
    Find(accounts, name).Some?
  }

  ghost predicate Distinct(accounts: Accounts) {
    accounts == [] || (!Has(accounts[1..], accounts[0].name) && Distinct(accounts[1..]))
  }

  lemma {:induction false} PutFinds(accounts: Accounts, name: string, entry: Entry, other: string)
    ensures Find(Put(accounts, name, entry), other) == if other == name then Some(entry) else Find(accounts, other)
  {
    if accounts != [] && accounts[0].name != name {
      PutFinds(accounts[1..], name, entry, other);
      assert Put(accounts, name, entry)[1..] == Put(accounts[1..], name, entry);
    } else if accounts != [] {
      assert Put(accounts, name, entry)[1..] == accounts[1..];
    } else {
      assert Put(accounts, name, entry)[1..] == [];
    }
  }

  lemma {:induction false} DropFinds(accounts: Accounts, name: string, other: string)
    requires Distinct(accounts)
    ensures Find(Drop(accounts, name), other) == if other == name then None else Find(accounts, other)
  {
    if accounts != [] && accounts[0].name != name {
      DropFinds(accounts[1..], name, other);
      assert Drop(accounts, name)[1..] == Drop(accounts[1..], name);
    }
  }

  lemma {:induction false} PutStaysDistinct(accounts: Accounts, name: string, entry: Entry)
    requires Distinct(accounts)
    ensures Distinct(Put(accounts, name, entry))
  {
    var after := Put(accounts, name, entry);
    if accounts != [] && accounts[0].name != name {
      PutStaysDistinct(accounts[1..], name, entry);
      PutFinds(accounts[1..], name, entry, accounts[0].name);
      assert after[1..] == Put(accounts[1..], name, entry);
    } else if accounts != [] {
      assert after[1..] == accounts[1..];
    } else {
      assert after[1..] == [];
    }
  }

  lemma {:induction false} DropStaysDistinct(accounts: Accounts, name: string)
    requires Distinct(accounts)
    ensures Distinct(Drop(accounts, name))
  {
    if accounts != [] && accounts[0].name != name {
      DropStaysDistinct(accounts[1..], name);
      DropFinds(accounts[1..], name, accounts[0].name);
      assert Drop(accounts, name)[1..] == Drop(accounts[1..], name);
    }
  }

  // ---------------------------------------------------------------- Lookup

  function AccountsAt(c: Credentials, origin: string): Accounts {
    if origin in c.origins then c.origins[origin] else []
  }

  /** Which account a lookup means. A named account is used verbatim, present or not. */
  function ResolveAccount(c: Credentials, origin: string, sub: string): string {
    var accounts := AccountsAt(c, origin);
    if Trim(sub) != "" then AccountKey(sub)
    else if origin in c.defaults && c.defaults[origin] != "" && Has(accounts, c.defaults[origin]) then
      c.defaults[origin]
    else if |accounts| == 1 then accounts[0].name
    else if Has(accounts, DEFAULT_ACCOUNT) then DEFAULT_ACCOUNT
    else ""
  }

  function Lookup(c: Credentials, origin: string, account: string): Option<Entry> {
    Find(AccountsAt(c, origin), account)
  }

  function ReadEntry(c: Credentials, origin: string, sub: string): Option<Entry> {
    if origin == "" then None else
    var account := ResolveAccount(c, origin, sub);
    if account == "" then None else Lookup(c, origin, account)
  }

  // ---------------------------------------------------------------- Writing

  /** What a caller asks to have stored. */
  datatype Grant = Grant(origin: string, serverUrl: string, gatewayUrl: string, pat: string, sub: string, email: string)

  function EntryOf(g: Grant, now: int): Entry {
    Entry(g.pat, g.serverUrl, g.gatewayUrl, now, g.sub, g.sub, g.email)
  }

  function Upserted(c: Credentials, g: Grant, now: int): Credentials {
    var account := AccountKey(g.sub);
    Credentials(c.origins[g.origin := Put(AccountsAt(c, g.origin), account, EntryOf(g, now))],
                c.defaults[g.origin := account])
  }

  function Removed(c: Credentials, origin: string, account: string): Credentials
    requires Lookup(c, origin, account).Some?
  {
    var rest := Drop(AccountsAt(c, origin), account);
    if rest == [] then Credentials(c.origins - {origin}, c.defaults - {origin})
    else Credentials(c.origins[origin := rest],
                     if origin in c.defaults && c.defaults[origin] == account
                     then c.defaults[origin := rest[0].name] else c.defaults)
  }

  /** The file, with the operations that read, change and rewrite it. */
  class CredentialsFile {
    var document: Document

    constructor ()
      ensures document == Missing
    {
      document := Missing;
    }

    /** Fails on an invalid URL, an empty PAT or an unwritable file, and then leaves the file alone. */
    method Upsert(g: Grant, now: int, writable: bool) returns (written: bool)
      modifies this
      ensures written <==> g.origin != "" && g.pat != "" && writable
      ensures document == if written then Stored(Upserted(Read(old(document)), g, now)) else old(document)
    {
      if g.origin == "" || g.pat == "" {
        return false;
      }
      var store := Read(document);
      var account := AccountKey(g.sub);
      if g.origin !in store.origins {
        store := store.(origins := store.origins[g.origin := []]);
      }
      store := store.(origins := store.origins[g.origin := Put(store.origins[g.origin], account, EntryOf(g, now))]);
      store := store.(defaults := store.defaults[g.origin := account]);
      if !writable {
        return false;
      }
      assert store.origins == Upserted(Read(document), g, now).origins;
      document := Stored(store);
      return true;
    }

    /** Removes what the lookup resolves to. Err is a failed write, which leaves the file alone. */
    method Delete(origin: string, sub: string, writable: bool) returns (removed: Result<bool, ()>)
      modifies this
      ensures var c, account := Read(old(document)), ResolveAccount(Read(old(document)), origin, sub);
              var found := origin != "" && account != "" && Lookup(c, origin, account).Some?;
              && removed == (if !found then Ok(false) else if writable then Ok(true) else Err(()))
              && document == if found && writable then Stored(Removed(c, origin, account)) else old(document)
    {
      if origin == "" {
        return Ok(false);
      }
      var store := Read(document);
      var account := ResolveAccount(store, origin, sub);
      if account == "" || Lookup(store, origin, account).None? {
        return Ok(false);
      }
      ghost var before := store;
      var rest := Drop(store.origins[origin], account);
      store := store.(origins := store.origins[origin := rest]);
      if |rest| == 0 {
        store := store.(origins := store.origins - {origin});
        store := store.(defaults := store.defaults - {origin});
        assert store.origins == before.origins - {origin};
      } else if origin in store.defaults && store.defaults[origin] == account {
        store := store.(defaults := store.defaults[origin := rest[0].name]);
      }
      if !writable {
        return Err(());
      }
      document := Stored(store);
      return Ok(true);
    }
  }

  // ---------------------------------------------------------------- Every history

  datatype Operation = Write(grant: Grant, now: int) | Erase(origin: string, sub: string)

  function Perform(c: Credentials, op: Operation): Credentials {
    match op
    case Write(g, now) => if g.origin == "" || g.pat == "" then c else Upserted(c, g, now)
    case Erase(origin, sub) =>
      var account := ResolveAccount(c, origin, sub);
      if origin == "" || account == "" || Lookup(c, origin, account).None? then c else Removed(c, origin, account)
  }

  function After(history: seq<Operation>): Credentials {
    if history == [] then EMPTY else Perform(After(history[..|history| - 1]), history[|history| - 1])
  }

  /** One origin's accounts are under distinct names that their entries agree with, and its default names
      one of them. */
  ghost predicate OriginFormed(accounts: Accounts, default: string) {
    && Distinct(accounts)
    && Has(accounts, default)
    && forall name | Has(accounts, name) :: name == AccountKey(Find(accounts, name).value.sub)
  }

  ghost predicate WellFormed(c: Credentials) {
    && c.origins.Keys == c.defaults.Keys
    && "" !in c.origins
    && forall o | o in c.origins :: OriginFormed(c.origins[o], c.defaults[o])
  }

  lemma PutKeepsOrigin(accounts: Accounts, name: string, entry: Entry)
    requires accounts == [] || exists d :: OriginFormed(accounts, d)
    requires name == AccountKey(entry.sub)
    ensures OriginFormed(Put(accounts, name, entry), name)
  {
    hide AccountKey, Put;
    PutStaysDistinct(accounts, name, entry);
    forall other ensures Find(Put(accounts, name, entry), other)
                         == if other == name then Some(entry) else Find(accounts, other)
    {
      PutFinds(accounts, name, entry, other);
    }
  }

  lemma DropKeepsOrigin(accounts: Accounts, name: string, default: string)
    requires OriginFormed(accounts, default) && Drop(accounts, name) != []
    ensures OriginFormed(Drop(accounts, name), if default == name then Drop(accounts, name)[0].name else default)
  {
    hide AccountKey, Drop;
    DropStaysDistinct(accounts, name);
    forall other ensures Find(Drop(accounts, name), other) == if other == name then None else Find(accounts, other) {
      DropFinds(accounts, name, other);
    }
  }

  lemma UpsertKeepsForm(c: Credentials, g: Grant, now: int)
    requires WellFormed(c) && g.origin != ""
    ensures WellFormed(Upserted(c, g, now))
  {
    hide OriginFormed, AccountKey, Put, Find, Distinct;
    if g.origin in c.origins {
      assert OriginFormed(AccountsAt(c, g.origin), c.defaults[g.origin]);
    }
    PutKeepsOrigin(AccountsAt(c, g.origin), AccountKey(g.sub), EntryOf(g, now));
  }

  lemma RemoveKeepsForm(c: Credentials, origin: string, account: string)
    requires WellFormed(c) && Lookup(c, origin, account).Some?
    ensures WellFormed(Removed(c, origin, account))
  {
    hide OriginFormed, AccountKey, Drop, Distinct;
    if Drop(AccountsAt(c, origin), account) != [] {
      DropKeepsOrigin(AccountsAt(c, origin), account, c.defaults[origin]);
    }
  }

  lemma {:induction false} HistoryIsWellFormed(history: seq<Operation>)
    ensures WellFormed(After(history))
  {
    if history != [] {
      var before, op := After(history[..|history| - 1]), history[|history| - 1];
      HistoryIsWellFormed(history[..|history| - 1]);
      match op
      case Write(g, now) => if g.origin != "" { UpsertKeepsForm(before, g, now); }
      case Erase(origin, sub) =>
        var account := ResolveAccount(before, origin, sub);
        if Lookup(before, origin, account).Some? {
          RemoveKeepsForm(before, origin, account);
        }
    }
  }

  lemma AccountKeyNotEmpty(sub: string)
    ensures AccountKey(sub) != ""
  {
  }

  /** After any history, a lookup that names no account resolves exactly when the origin has an entry. */
  lemma DefaultLookupResolves(history: seq<Operation>, origin: string, sub: string)
    requires Trim(sub) == ""
    ensures ReadEntry(After(history), origin, sub).Some? <==> origin in After(history).origins
  {
    hide After, Trim, AccountKey, Distinct;
    var c := After(history);
    HistoryIsWellFormed(history);
    if origin in c.origins {
      AccountKeyNotEmpty(Find(c.origins[origin], c.defaults[origin]).value.sub);
    }
  }

  /** After any history, a lookup that names an account finds that account's own entry or nothing. */
  lemma NamedLookupIsOwn(history: seq<Operation>, origin: string, sub: string)
    requires Trim(sub) != "" && ReadEntry(After(history), origin, sub).Some?
    ensures AccountKey(ReadEntry(After(history), origin, sub).value.sub) == AccountKey(sub)
  {
    hide After, Trim, Distinct;
    HistoryIsWellFormed(history);
  }

  lemma UpsertedLookup(c: Credentials, g: Grant, now: int, o: string, a: string)
    ensures Lookup(Upserted(c, g, now), o, a)
            == if o == g.origin && a == AccountKey(g.sub) then Some(EntryOf(g, now)) else Lookup(c, o, a)
  {
    PutFinds(AccountsAt(c, g.origin), AccountKey(g.sub), EntryOf(g, now), a);
  }

  lemma RemovedLookup(c: Credentials, origin: string, account: string, o: string, a: string)
    requires WellFormed(c) && Lookup(c, origin, account).Some?
    ensures Lookup(Removed(c, origin, account), o, a) == if o == origin && a == account then None else Lookup(c, o, a)
  {
    hide AccountKey;
    DropFinds(AccountsAt(c, origin), account, a);
  }

  lemma NoBlankAccount(c: Credentials, origin: string)
    requires WellFormed(c)
    ensures Lookup(c, origin, "").None?
  {
    if Lookup(c, origin, "").Some? {
      AccountKeyNotEmpty(Lookup(c, origin, "").value.sub);
    }
  }

  /** Right after a write, both the written account and no account at all mean the written one. */
  lemma WriteClaimsDefault(c: Credentials, g: Grant, now: int, sub: string)
    requires sub == g.sub || sub == ""
    ensures ResolveAccount(Upserted(c, g, now), g.origin, sub) == AccountKey(g.sub) != ""
  {
    hide Put, Find, Trim;
    UpsertedLookup(c, g, now, g.origin, AccountKey(g.sub));
    AccountKeyNotEmpty(g.sub);
    TrimNothing();
  }

  /** A write is what the account and, from then on, the origin's default resolve to; no other pair changes. */
  lemma WriteTouchesOnePair(c: Credentials, g: Grant, now: int, o: string, a: string)
    requires g.origin != "" && g.pat != ""
    ensures var after := Perform(c, Write(g, now));
            && (!(o == g.origin && a == AccountKey(g.sub)) ==> Lookup(after, o, a) == Lookup(c, o, a))
            && ReadEntry(after, g.origin, g.sub) == ReadEntry(after, g.origin, "")
            && ReadEntry(after, g.origin, "")
               == Some(Entry(g.pat, g.serverUrl, g.gatewayUrl, now, g.sub, g.sub, g.email))
  {
    UpsertedLookup(c, g, now, o, a);
    UpsertedLookup(c, g, now, g.origin, AccountKey(g.sub));
    WriteClaimsDefault(c, g, now, g.sub);
    WriteClaimsDefault(c, g, now, "");
  }

  /** An erase leaves the account it resolved to without an entry, and no other pair changes. */
  lemma EraseTouchesOnePair(history: seq<Operation>, origin: string, sub: string, o: string, a: string)
    requires origin != ""
    ensures var c := After(history);
            var account := ResolveAccount(c, origin, sub);
            var after := Perform(c, Erase(origin, sub));
            && (!(o == origin && a == account) ==> Lookup(after, o, a) == Lookup(c, o, a))
            && Lookup(after, origin, account).None?
  {
    hide After, Trim, AccountKey, Distinct;
    var c := After(history);
    HistoryIsWellFormed(history);
    var account := ResolveAccount(c, origin, sub);
    if Lookup(c, origin, account).Some? {
      RemovedLookup(c, origin, account, o, a);
      RemovedLookup(c, origin, account, origin, account);
    }
    if account == "" {
      NoBlankAccount(c, origin);
    }
  }

  /** On any file, also one no history wrote: without a name the recorded default is meant when it names an account,
      else the only account there is, else the no-account one. */
  lemma LookupWithoutName(c: Credentials, origin: string, sub: string)
    requires Trim(sub) == "" && origin != ""
    ensures var accounts := if origin in c.origins then c.origins[origin] else [];
            if origin in c.defaults && c.defaults[origin] != "" && Lookup(c, origin, c.defaults[origin]).Some?
            then ReadEntry(c, origin, sub) == Lookup(c, origin, c.defaults[origin])
            else if |accounts| == 1
            then ReadEntry(c, origin, sub) == if accounts[0].name == "" then None else Some(accounts[0].entry)
            else ReadEntry(c, origin, sub) == Lookup(c, origin, "_default")
  {
  }

  /** A lookup with a name never means another account, and a file that is missing or malformed has nothing. */
  lemma LookupWithName(c: Credentials, origin: string, sub: string)
    requires Trim(sub) != "" && origin != ""
    ensures ReadEntry(c, origin, sub) == Lookup(c, origin, Trim(sub))
    ensures ReadEntry(Read(Missing), origin, sub).None? && ReadEntry(Read(Malformed), origin, sub).None?
    ensures ReadEntry(Read(Missing), origin, "").None? && ReadEntry(Read(Malformed), origin, "").None?
  {
  }

  /** So several accounts and no recorded default, or one that names none of them, resolve to the no-account entry if
      there is one, and otherwise to nothing. */
  lemma SeveralWithoutDefault(c: Credentials, origin: string, sub: string)
    requires Trim(sub) == "" && |AccountsAt(c, origin)| > 1 && origin != ""
    requires origin in c.defaults ==> !Has(AccountsAt(c, origin), c.defaults[origin])
    ensures ReadEntry(c, origin, sub) == Lookup(c, origin, DEFAULT_ACCOUNT)
  {
    LookupWithoutName(c, origin, sub);
  }
}
