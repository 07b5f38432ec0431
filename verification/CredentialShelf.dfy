/** The credentials file as a shelf for each origin: account names in the order they came, an entry under each, and one
    of them the default. Every history of writes and deletes leaves the file as it leaves the shelf. */
module CredentialShelf {
  import opened Wrappers
  import opened Text
  import opened DaemonStore

  datatype Shelf = Shelf(names: seq<string>, default: string, entries: map<string, Entry>)

  function NameFor(sub: string): string {
    if Trim(sub) == "" then "_default" else Trim(sub)
  }

  /** Whom an account means: itself, or without a name the default. */
  function Meant(shelf: Shelf, sub: string): string {
    if Trim(sub) != "" then Trim(sub) else shelf.default
  }

  function Without(names: seq<string>, name: string): seq<string> {
    if names == [] then [] else (if names[0] == name then [] else [names[0]]) + Without(names[1..], name)
  }

  /** A new name goes to the end, and what is written is the default from then on. */
  function Placed(shelf: Shelf, g: Grant, now: int): Shelf {
    var name := NameFor(g.sub);
    Shelf(if name in shelf.names then shelf.names else shelf.names + [name], name,
          shelf.entries[name := Entry(g.pat, g.serverUrl, g.gatewayUrl, now, g.sub, g.sub, g.email)])
  }

  /** When the default is taken away, the oldest name left becomes it. */
  function Taken(shelf: Shelf, name: string): Shelf {
    var rest := Without(shelf.names, name);
    Shelf(rest, if rest == [] then "" else if shelf.default == name then rest[0] else shelf.default,
          shelf.entries - {name})
  }

  function Stepped(shelf: Shelf, op: Operation, origin: string): Shelf {
    match op
    case Write(g, now) => if g.origin == origin && g.origin != "" && g.pat != "" then Placed(shelf, g, now) else shelf
    case Erase(o, sub) =>
      if o == origin && o != "" && Meant(shelf, sub) in shelf.names then Taken(shelf, Meant(shelf, sub)) else shelf
  }

  function ShelfOf(history: seq<Operation>, origin: string): Shelf {
    if history == [] then Shelf([], "", map[])
    else Stepped(ShelfOf(history[..|history| - 1], origin), history[|history| - 1], origin)
  }

  // ---------------------------------------------------------------- One origin's accounts

  function Names(accounts: Accounts): seq<string> {
    if accounts == [] then [] else [accounts[0].name] + Names(accounts[1..])
  }

  lemma {:induction false} NamesHave(accounts: Accounts, name: string)
    ensures name in Names(accounts) <==> Has(accounts, name)
    ensures |Names(accounts)| == |accounts|
    ensures accounts != [] ==> Names(accounts)[0] == accounts[0].name
  {
    if accounts != [] {
      NamesHave(accounts[1..], name);
    }
  }

  lemma {:induction false} PutNames(accounts: Accounts, name: string, entry: Entry)
    ensures Names(Put(accounts, name, entry))
            == if Has(accounts, name) then Names(accounts) else Names(accounts) + [name]
  {
    if accounts == [] {
      assert Put(accounts, name, entry)[1..] == [];
    } else if accounts[0].name == name {
      assert Put(accounts, name, entry)[1..] == accounts[1..];
    } else {
      PutNames(accounts[1..], name, entry);
      assert Put(accounts, name, entry)[1..] == Put(accounts[1..], name, entry);
    }
  }

  lemma {:induction false} WithoutNothing(names: seq<string>, name: string)
    requires name !in names
    ensures Without(names, name) == names
  {
    if names != [] {
      WithoutNothing(names[1..], name);
      assert [names[0]] + names[1..] == names;
    }
  }

  lemma {:induction false} DropNames(accounts: Accounts, name: string)
    requires Distinct(accounts)
    ensures Names(Drop(accounts, name)) == Without(Names(accounts), name)
  {
    if accounts != [] {
      assert Names(accounts)[1..] == Names(accounts[1..]);
      if accounts[0].name == name {
        NamesHave(accounts[1..], name);
        WithoutNothing(Names(accounts[1..]), name);
        assert [] + Names(accounts[1..]) == Names(accounts[1..]);
      } else {
        DropNames(accounts[1..], name);
        assert Drop(accounts, name)[1..] == Drop(accounts[1..], name);
      }
    }
  }

  // ---------------------------------------------------------------- The file is the shelf

  ghost predicate OnShelf(c: Credentials, origin: string, shelf: Shelf) {
    && Names(AccountsAt(c, origin)) == shelf.names
    && (origin in c.origins <==> shelf.names != [])
    && (if origin in c.defaults then c.defaults[origin] == shelf.default else shelf.default == "")
    && (forall name :: Lookup(c, origin, name) == if name in shelf.entries then Some(shelf.entries[name]) else None)
  }

  lemma KeyIsName(sub: string)
    ensures AccountKey(sub) == NameFor(sub)
  {
  }

  lemma WriteIsPlaced(c: Credentials, shelf: Shelf, g: Grant, now: int)
    requires OnShelf(c, g.origin, shelf)
    ensures OnShelf(Upserted(c, g, now), g.origin, Placed(shelf, g, now))
  {
    KeyIsName(g.sub);
    NamesHave(AccountsAt(c, g.origin), NameFor(g.sub));
    PutNames(AccountsAt(c, g.origin), NameFor(g.sub), EntryOf(g, now));
    forall name ensures Lookup(Upserted(c, g, now), g.origin, name)
                        == if name == NameFor(g.sub) then Some(EntryOf(g, now)) else Lookup(c, g.origin, name)
    {
      UpsertedLookup(c, g, now, g.origin, name);
    }
    hide Put, Find, Names, NameFor;
  }

  lemma WriteLeavesOthers(c: Credentials, shelf: Shelf, g: Grant, now: int, origin: string)
    requires OnShelf(c, origin, shelf) && origin != g.origin
    ensures OnShelf(Upserted(c, g, now), origin, shelf)
  {
    hide Put, Find, Names;
  }

  /** On a well-formed file a lookup resolves to what is meant, when it resolves to anything. */
  lemma ResolvesToMeant(c: Credentials, origin: string, shelf: Shelf, sub: string)
    requires WellFormed(c) && OnShelf(c, origin, shelf)
    ensures var account := ResolveAccount(c, origin, sub);
            && (account in shelf.names <==> Meant(shelf, sub) in shelf.names)
            && (account in shelf.names ==> account == Meant(shelf, sub))
            && (Lookup(c, origin, account).Some? <==> account in shelf.names)
            && "" !in shelf.names
  {
    var account := ResolveAccount(c, origin, sub);
    NamesHave(AccountsAt(c, origin), account);
    NamesHave(AccountsAt(c, origin), Meant(shelf, sub));
    NamesHave(AccountsAt(c, origin), "");
    NoBlankAccount(c, origin);
    hide Names, Trim, Distinct, Find;
  }

  lemma RemovedParts(c: Credentials, origin: string, name: string)
    requires WellFormed(c) && Lookup(c, origin, name).Some?
    ensures var after, rest := Removed(c, origin, name), Drop(AccountsAt(c, origin), name);
            && AccountsAt(after, origin) == rest
            && (origin in after.origins <==> rest != [])
            && origin in c.defaults
            && (origin in after.defaults <==> rest != [])
            && (rest != [] ==>
                  after.defaults[origin] == if c.defaults[origin] == name then rest[0].name else c.defaults[origin])
  {
    hide Drop, OriginFormed;
  }

  lemma EraseIsTaken(c: Credentials, shelf: Shelf, origin: string, name: string)
    requires WellFormed(c) && OnShelf(c, origin, shelf) && Lookup(c, origin, name).Some?
    ensures OnShelf(Removed(c, origin, name), origin, Taken(shelf, name))
  {
    assert Distinct(AccountsAt(c, origin));
    RemovedParts(c, origin, name);
    forall other ensures Lookup(Removed(c, origin, name), origin, other)
                         == if other == name then None else Lookup(c, origin, other)
    {
      RemovedLookup(c, origin, name, origin, other);
    }
    hide Drop, Names, Without, Distinct, Removed, WellFormed, Lookup;
    var accounts := AccountsAt(c, origin);
    DropNames(accounts, name);
    NamesHave(Drop(accounts, name), name);
  }

  lemma EraseLeavesOthers(c: Credentials, shelf: Shelf, o: string, name: string, origin: string)
    requires OnShelf(c, origin, shelf) && origin != o && Lookup(c, o, name).Some?
    ensures OnShelf(Removed(c, o, name), origin, shelf)
  {
    hide Drop, Find, Names;
  }

  lemma StepStaysOnShelf(c: Credentials, shelf: Shelf, op: Operation, origin: string)
    requires origin != "" && WellFormed(c) && OnShelf(c, origin, shelf)
    ensures OnShelf(Perform(c, op), origin, Stepped(shelf, op, origin))
  {
    hide OnShelf, WellFormed, Upserted, Removed, Placed, Taken, ResolveAccount, Meant, Lookup;
    match op
    case Write(g, now) =>
      if g.origin == origin { WriteIsPlaced(c, shelf, g, now); } else { WriteLeavesOthers(c, shelf, g, now, origin); }
    case Erase(o, sub) =>
      var account := ResolveAccount(c, o, sub);
      if o == origin {
        ResolvesToMeant(c, origin, shelf, sub);
        if Lookup(c, o, account).Some? {
          EraseIsTaken(c, shelf, origin, account);
        }
      } else if Lookup(c, o, account).Some? {
        EraseLeavesOthers(c, shelf, o, account, origin);
      }
  }

  /** After every history the file has, at every origin, the names in order, the default and the entries of the
      shelf. */
  lemma {:induction false} FileIsTheShelf(history: seq<Operation>, origin: string)
    requires origin != ""
    ensures OnShelf(After(history), origin, ShelfOf(history, origin))
  {
    hide OnShelf, WellFormed, Perform, Stepped;
    if history == [] {
      EmptyFile(origin);
    } else {
      var before := history[..|history| - 1];
      FileIsTheShelf(before, origin);
      HistoryIsWellFormed(before);
      StepStaysOnShelf(After(before), ShelfOf(before, origin), history[|history| - 1], origin);
    }
  }

  lemma EmptyFile(origin: string)
    ensures OnShelf(EMPTY, origin, Shelf([], "", map[]))
  {
  }

  /** And a lookup gives the entry of the name that is meant: the account's own, or the default's. */
  lemma LookupReadsTheShelf(history: seq<Operation>, origin: string, sub: string)
    requires origin != ""
    ensures var shelf := ShelfOf(history, origin);
            ReadEntry(After(history), origin, sub)
            == if Meant(shelf, sub) in shelf.entries then Some(shelf.entries[Meant(shelf, sub)]) else None
  {
    FileIsTheShelf(history, origin);
    HistoryIsWellFormed(history);
    var c, shelf := After(history), ShelfOf(history, origin);
    ResolvesToMeant(c, origin, shelf, sub);
    NamesHave(AccountsAt(c, origin), Meant(shelf, sub));
    NoBlankAccount(c, origin);
    hide After, ShelfOf, ResolveAccount, WellFormed, Names, Meant;
  }
}
