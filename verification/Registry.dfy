/** The registry of stored items: hashes and the identifiers issued for them, the listing of live items page by page,
    and saving to and loading from a dump. */
module Registry {
  import opened Common

  // Digests are ordered, as the sorted listing needs.
  type Digest = nat
  type Ulid = string
  type Metadata = string

  datatype RegistryError = AlreadyUploaded(existing: Ulid) | IndexError(offset: int) | NoUlid | UlidsNotUnique | NoMetadata

  /** The state: `resolve` keeps every identifier issued in this run, `listing` the live hashes in order. */
  datatype Reg = Reg(metadata: map<Digest, Metadata>, ulids: map<Digest, Ulid>, resolve: map<Ulid, Digest>,
                     listing: seq<Digest>, deleted: set<Digest>, sizes: map<Digest, int>)

  datatype Dump = Dump(metadata: map<Digest, Metadata>, ulids: map<Digest, Ulid>, deleted: set<Digest>, sizes: map<Digest, int>)

  // ----- the sorted listing

  ghost predicate Ascending(s: seq<Digest>) {
    forall i, j :: 0 <= i < j < |s| ==> s[i] < s[j]
  }

  function Insert(s: seq<Digest>, x: Digest): (r: seq<Digest>)
    ensures forall y :: y in r <==> y in s || y == x
  {
    if s == [] || x < s[0] then [x] + s
    else if x == s[0] then s
    else [s[0]] + Insert(s[1..], x)
  }

  function Remove(s: seq<Digest>, x: Digest): (r: seq<Digest>)
    ensures forall y :: y in r ==> y in s
  {
    if s == [] then []
    else if s[0] == x then s[1..]
    else [s[0]] + Remove(s[1..], x)
  }

  lemma AscendingTail(s: seq<Digest>)
    requires Ascending(s) && s != []
    ensures Ascending(s[1..]) && forall y :: y in s[1..] ==> s[0] < y
    ensures forall y :: y in s <==> y == s[0] || y in s[1..]
  {
    assert s == [s[0]] + s[1..];
  }

  lemma AscendingCons(x: Digest, s: seq<Digest>)
    requires Ascending(s) && forall y :: y in s ==> x < y
    ensures Ascending([x] + s)
  {
    forall j | 0 <= j < |s| ensures x < s[j] {
      assert s[j] in s;
    }
  }

  lemma {:induction false} InsertAscending(s: seq<Digest>, x: Digest)
    requires Ascending(s)
    ensures Ascending(Insert(s, x))
  {
    if s != [] {
      AscendingTail(s);
      if x > s[0] {
        InsertAscending(s[1..], x);
        AscendingCons(s[0], Insert(s[1..], x));
      }
    }
  }

  lemma {:induction false} RemoveAscending(s: seq<Digest>, x: Digest)
    requires Ascending(s)
    ensures Ascending(Remove(s, x)) && forall y :: y in Remove(s, x) <==> y in s && y != x
  {
    if s != [] {
      AscendingTail(s);
      if s[0] != x {
        RemoveAscending(s[1..], x);
        AscendingCons(s[0], Remove(s[1..], x));
      }
    }
  }

  /** A sorted listing is determined by what it lists. */
  lemma {:induction false} ListingUnique(s: seq<Digest>, t: seq<Digest>)
    requires Ascending(s) && Ascending(t) && forall y :: y in s <==> y in t
    ensures s == t
  {
    if t != [] { assert t[0] in t; }
    if s != [] {
      AscendingTail(s);
      assert s[0] in s && s[0] in t;
      AscendingTail(t);
      assert t[0] in t && t[0] in s;
      ListingUnique(s[1..], t[1..]);
      assert s == [s[0]] + s[1..] && t == [t[0]] + t[1..];
    }
  }

  // ----- operations

  function Added(g: Reg, hash: Digest, metadata: Metadata, size: int, ulid: Ulid): (Reg, Outcome<Ulid, RegistryError>) {
    if hash in g.ulids then (g, Raised(AlreadyUploaded(g.ulids[hash])))
    else if ulid in g.resolve then (g, Raised(AlreadyUploaded(ulid)))
    else (Reg(g.metadata[hash := metadata], g.ulids[hash := ulid], g.resolve[ulid := hash],
              Insert(g.listing, hash), g.deleted - {hash}, g.sizes[hash := size]), Ok(ulid))
  }

  /** Whether there was such an item, and if so whether its metadata is gone as well. */
  function Removed(g: Reg, keep: bool, hash: Digest): (Reg, Option<bool>) {
    if hash !in g.ulids then (g, None)
    else
      var rest := g.(ulids := g.ulids - {hash}, listing := Remove(g.listing, hash), deleted := g.deleted + {hash});
      if keep then (rest, Some(false))
      else (rest.(metadata := g.metadata - {hash}, sizes := g.sizes - {hash}), Some(true))
  }

  datatype Op = New(hash: Digest, metadata: Metadata, size: int, ulid: Ulid) | Delete(hash: Digest)

  datatype Answer = Issued(issued: Outcome<Ulid, RegistryError>) | Deleted(gone: Option<bool>)

  function Step(g: Reg, keep: bool, op: Op): (Reg, Answer) {
    match op
    case New(hash, metadata, size, ulid) => var (after, r) := Added(g, hash, metadata, size, ulid); (after, Issued(r))
    case Delete(hash) => var (after, r) := Removed(g, keep, hash); (after, Deleted(r))
  }

  function Run(g: Reg, keep: bool, ops: seq<Op>): Reg
    decreases |ops|
  {
    if ops == [] then g else Run(Step(g, keep, ops[0]).0, keep, ops[1..])
  }

  /** Live hashes and identifiers match one to one, the listing lists the live hashes, deleted ones are not live,
      and metadata and sizes are there for the live hashes and no others, but for deleted ones if they are kept. */
  ghost predicate RegOk(g: Reg, keep: bool) {
    && Ascending(g.listing)
    && (forall h :: h in g.listing <==> h in g.ulids)
    && (forall h :: h in g.ulids ==> g.ulids[h] in g.resolve && g.resolve[g.ulids[h]] == h)
    && g.deleted !! g.ulids.Keys
    && g.sizes.Keys == g.metadata.Keys
    && g.ulids.Keys <= g.metadata.Keys <= g.ulids.Keys + (if keep then g.deleted else {})
  }

  lemma NewKeeps(g: Reg, keep: bool, hash: Digest, metadata: Metadata, size: int, ulid: Ulid)
    requires RegOk(g, keep)
    ensures RegOk(Added(g, hash, metadata, size, ulid).0, keep)
  {
    InsertAscending(g.listing, hash);
    hide Ascending;
  }

  lemma DeleteKeeps(g: Reg, keep: bool, hash: Digest)
    requires RegOk(g, keep)
    ensures RegOk(Removed(g, keep, hash).0, keep)
  {
    RemoveAscending(g.listing, hash);
    hide Ascending;
  }

  /** The indexes agree after any run. */
  lemma {:induction false} RunKeeps(g: Reg, keep: bool, ops: seq<Op>)
    requires RegOk(g, keep)
    ensures RegOk(Run(g, keep, ops), keep)
    decreases |ops|
  {
    hide RegOk;
    if ops != [] {
      match ops[0]
      case New(hash, metadata, size, ulid) => NewKeeps(g, keep, hash, metadata, size, ulid);
        RunKeeps(Step(g, keep, ops[0]).0, keep, ops[1..]);
      case Delete(hash) => DeleteKeeps(g, keep, hash);
        RunKeeps(Step(g, keep, ops[0]).0, keep, ops[1..]);
    }
  }

  ghost const Blank := Reg(map[], map[], map[], [], {}, map[])

  /** A registry that starts out empty agrees with itself for good. */
  lemma BlankKeeps(keep: bool, ops: seq<Op>)
    ensures RegOk(Blank, keep) && RegOk(Run(Blank, keep, ops), keep)
  {
    RunKeeps(Blank, keep, ops);
  }

  // ----- what the registry records, told from the operations alone

  /** An item as it was given. */
  datatype Item = Item(metadata: Metadata, size: int, ulid: Ulid)

  ghost function ItemOf(g: Reg, h: Digest): Option<Item> {
    if h in g.ulids && h in g.metadata && h in g.sizes then Some(Item(g.metadata[h], g.sizes[h], g.ulids[h])) else None
  }

  /** The live item: the one given by the last `New` of this hash that went through, unless a `Delete` came after; that
      of the first registry if there was none. */
  ghost function Live(g: Reg, ops: seq<Op>, h: Digest): Option<Item>
    decreases |ops|, 1
  {
    if ops == [] then ItemOf(g, h)
    else
      var front, op := ops[..|ops| - 1], ops[|ops| - 1];
      if op.hash != h then Live(g, front, h)
      else if op.Delete? then None
      else if GoesThrough(g, front, op) then Some(Item(op.metadata, op.size, op.ulid))
      else Live(g, front, h)
  }

  /** A `New` goes through exactly for a hash that is not live and an identifier never issued before. */
  ghost predicate GoesThrough(g: Reg, front: seq<Op>, op: Op)
    decreases |front|, 2
  {
    op.New? && Live(g, front, op.hash).None? && !HandedOut(g, front, op.ulid)
  }

  ghost predicate HandedOut(g: Reg, ops: seq<Op>, ulid: Ulid)
    decreases |ops|, 0
  {
    if ops == [] then ulid in g.resolve
    else
      var front, op := ops[..|ops| - 1], ops[|ops| - 1];
      HandedOut(g, front, ulid) || (op.New? && op.ulid == ulid && Live(g, front, op.hash).None?)
  }

  /** What is known of a deleted item: what it was given as when it was live last, if metadata is kept. */
  ghost function Past(g: Reg, keep: bool, ops: seq<Op>, h: Digest): Option<(Metadata, int)>
    decreases |ops|
  {
    if ops == [] then (if h in g.metadata && h in g.sizes then Some((g.metadata[h], g.sizes[h])) else None)
    else
      var front, op := ops[..|ops| - 1], ops[|ops| - 1];
      if op.hash != h then Past(g, keep, front, h)
      else if op.New? then (if GoesThrough(g, front, op) then Some((op.metadata, op.size)) else Past(g, keep, front, h))
      else if keep || Live(g, front, h).None? then Past(g, keep, front, h)
      else None
  }

  /** The item has been deleted, and not been given again. */
  ghost predicate Gone(g: Reg, ops: seq<Op>, h: Digest)
    decreases |ops|
  {
    if ops == [] then h in g.deleted
    else
      var front, op := ops[..|ops| - 1], ops[|ops| - 1];
      if op.hash != h then Gone(g, front, h)
      else if op.New? then Gone(g, front, h) && !GoesThrough(g, front, op)
      else Gone(g, front, h) || Live(g, front, h).Some?
  }

  ghost predicate AsTold(g: Reg, keep: bool, ops: seq<Op>, now: Reg, h: Digest) {
    && ItemOf(now, h) == Live(g, ops, h) && (h in now.ulids <==> Live(g, ops, h).Some?)
    && (h in now.deleted <==> Gone(g, ops, h))
    && (if h in now.metadata && h in now.sizes then Past(g, keep, ops, h) == Some((now.metadata[h], now.sizes[h]))
        else Past(g, keep, ops, h).None?)
  }

  ghost predicate IssuedAsTold(g: Reg, ops: seq<Op>, now: Reg) { forall u :: u in now.resolve <==> HandedOut(g, ops, u) }

  lemma RunSnoc(g: Reg, keep: bool, ops: seq<Op>)
    requires ops != []
    ensures Run(g, keep, ops) == Step(Run(g, keep, ops[..|ops| - 1]), keep, ops[|ops| - 1]).0
    decreases |ops|
  {
    hide Step;
    if |ops| > 1 {
      RunSnoc(Step(g, keep, ops[0]).0, keep, ops[1..]);
      assert ops[1..][..|ops| - 2] == ops[..|ops| - 1][1..];
    }
  }

  /** After any run the registry holds of every hash exactly that: metadata, size and identifier of a live item as they
      were given, which items are deleted, what is kept of them, and which identifiers have been issued. */
  lemma {:induction false} RecordsWhatWasGiven(g: Reg, keep: bool, ops: seq<Op>, h: Digest)
    requires RegOk(g, keep)
    ensures AsTold(g, keep, ops, Run(g, keep, ops), h)
    ensures IssuedAsTold(g, ops, Run(g, keep, ops))
    decreases |ops|
  {
    hide AsTold, IssuedAsTold, RegOk, Step;
    if ops == [] {
      NothingTold(g, keep, h);
    } else {
      var front, op := ops[..|ops| - 1], ops[|ops| - 1];
      RunSnoc(g, keep, ops);
      RunKeeps(g, keep, front);
      RecordsWhatWasGiven(g, keep, front, h);
      RecordsWhatWasGiven(g, keep, front, op.hash);
      StepTold(g, keep, ops, Run(g, keep, front), h);
    }
  }

  lemma NothingTold(g: Reg, keep: bool, h: Digest)
    requires RegOk(g, keep)
    ensures AsTold(g, keep, [], g, h) && IssuedAsTold(g, [], g)
  {
  }

  lemma StepTold(g: Reg, keep: bool, ops: seq<Op>, now: Reg, h: Digest)
    requires ops != [] && RegOk(now, keep)
    requires var front, op := ops[..|ops| - 1], ops[|ops| - 1];
      AsTold(g, keep, front, now, h) && AsTold(g, keep, front, now, op.hash) && IssuedAsTold(g, front, now)
    ensures var next := Step(now, keep, ops[|ops| - 1]).0;
      AsTold(g, keep, ops, next, h) && IssuedAsTold(g, ops, next)
  {
    var front, op := ops[..|ops| - 1], ops[|ops| - 1];
    assert GoesThrough(g, front, op) <==> op.New? && op.hash !in now.ulids && op.ulid !in now.resolve;
    hide RegOk, GoesThrough, AsTold, IssuedAsTold, Insert, Remove, HandedOut, Live, Past, Gone, Added, Removed;
    IssuedStep(g, keep, ops, now);
    if op.hash != h {
      OtherTold(g, keep, ops, now, h);
    } else if op.New? {
      NewTold(g, keep, ops, now);
    } else {
      DeleteTold(g, keep, ops, now);
    }
  }

  lemma IssuedStep(g: Reg, keep: bool, ops: seq<Op>, now: Reg)
    requires ops != [] && IssuedAsTold(g, ops[..|ops| - 1], now) && AsTold(g, keep, ops[..|ops| - 1], now, ops[|ops| - 1].hash)
    ensures IssuedAsTold(g, ops, Step(now, keep, ops[|ops| - 1]).0)
  {
    hide Insert, Remove, Live, Past, Gone, ItemOf;
  }

  lemma OtherTold(g: Reg, keep: bool, ops: seq<Op>, now: Reg, h: Digest)
    requires ops != [] && AsTold(g, keep, ops[..|ops| - 1], now, h) && ops[|ops| - 1].hash != h
    ensures AsTold(g, keep, ops, Step(now, keep, ops[|ops| - 1]).0, h)
  {
    hide Insert, Remove, GoesThrough;
  }

  lemma NewTold(g: Reg, keep: bool, ops: seq<Op>, now: Reg)
    requires ops != [] && ops[|ops| - 1].New?
    requires var front, op := ops[..|ops| - 1], ops[|ops| - 1];
      AsTold(g, keep, front, now, op.hash) && (GoesThrough(g, front, op) <==> op.hash !in now.ulids && op.ulid !in now.resolve)
    ensures AsTold(g, keep, ops, Step(now, keep, ops[|ops| - 1]).0, ops[|ops| - 1].hash)
  {
    hide Insert, GoesThrough;
  }

  lemma DeleteTold(g: Reg, keep: bool, ops: seq<Op>, now: Reg)
    requires ops != [] && ops[|ops| - 1].Delete? && AsTold(g, keep, ops[..|ops| - 1], now, ops[|ops| - 1].hash)
    ensures AsTold(g, keep, ops, Step(now, keep, ops[|ops| - 1]).0, ops[|ops| - 1].hash)
  {
    hide Remove;
  }

  /** How a run answers: a `New` that goes through with its identifier; one for a live hash with the identifier it was
      given; one that only repeats an identifier with that. A `Delete` tells whether there was an item, and whether
      nothing of it is kept. */
  lemma AnswersAsGiven(g: Reg, keep: bool, ops: seq<Op>, op: Op)
    requires RegOk(g, keep)
    ensures Step(Run(g, keep, ops), keep, op).1 ==
      var live := Live(g, ops, op.hash);
      if op.New? then
        Issued(if live.Some? then Raised(AlreadyUploaded(live.value.ulid))
               else if HandedOut(g, ops, op.ulid) then Raised(AlreadyUploaded(op.ulid)) else Ok(op.ulid))
      else Deleted(if live.None? then None else Some(!keep))
  {
    RecordsWhatWasGiven(g, keep, ops, op.hash);
    hide Live, HandedOut, Gone, Past, Run;
  }

  /** Two live items never share an identifier. */
  lemma UlidsDiffer(g: Reg, keep: bool, h: Digest, k: Digest)
    requires RegOk(g, keep) && h in g.ulids && k in g.ulids && g.ulids[h] == g.ulids[k]
    ensures h == k
  {
  }

  /** An identifier goes on naming the same hash whatever is added or deleted later. */
  lemma {:induction false} IssuedResolves(g: Reg, keep: bool, ops: seq<Op>, ulid: Ulid)
    requires ulid in g.resolve
    ensures ulid in Run(g, keep, ops).resolve && Run(g, keep, ops).resolve[ulid] == g.resolve[ulid]
    decreases |ops|
  {
    if ops != [] { IssuedResolves(Step(g, keep, ops[0]).0, keep, ops[1..], ulid); }
  }

  // ----- pages

  datatype Page = Page(items: seq<Digest>, total: nat, hasMore: bool)

  /** A page is the stretch of the listing asked for, cut at its end; it tells how many there are and whether more follow.
      It raises for a negative offset, one beyond the end, and a limit that is not positive. */
  lemma PageExactly(listing: seq<Digest>, offset: int, limit: int)
    ensures var r := ResolveQuery(listing, offset, limit);
      if offset < 0 || limit <= 0 || offset > |listing| then r == Raised(IndexError(offset))
      else
        var end := if offset + limit < |listing| then offset + limit else |listing|;
        r == Ok(Page(listing[offset..end], |listing|, end < |listing|))
  {
    if 0 <= offset <= |listing| && limit > 0 {
      assert Window(listing, offset, limit) == listing[offset..if offset + limit < |listing| then offset + limit else |listing|];
    }
  }

  function ResolveQuery(listing: seq<Digest>, offset: int, limit: int): Outcome<Page, RegistryError> {
    if offset < 0 || limit <= 0 || offset > |listing| then Raised(IndexError(offset))
    else Ok(Page(Window(listing, offset, limit), |listing|, offset + limit < |listing|))
  }

  /** The pages from an offset on, asking for another as long as the last answer announced one. */
  function Walk(listing: seq<Digest>, offset: nat, limit: int): (pages: seq<seq<Digest>>)
    requires limit > 0 && offset <= |listing|
    decreases |listing| - offset
  {
    var page := ResolveQuery(listing, offset, limit).value;
    [page.items] + (if page.hasMore then Walk(listing, offset + limit, limit) else [])
  }

  lemma ConsConcat(page: seq<Digest>, rest: seq<seq<Digest>>)
    ensures Concat([page] + rest) == page + Concat(rest)
    ensures Concat([page] + []) == page
  {
    assert ([page] + rest)[1..] == rest;
    ConcatAppend([page], []);
    assert [page][1..] == [];
    Units(page);
  }

  lemma {:induction false} WalkConcat(listing: seq<Digest>, offset: nat, limit: int)
    requires limit > 0 && offset <= |listing|
    ensures Concat(Walk(listing, offset, limit)) == listing[offset..]
    decreases |listing| - offset
  {
    hide Concat, Walk;
    WalkStep(listing, offset, limit);
    if offset + limit < |listing| {
      WalkConcat(listing, offset + limit, limit);
      ConsConcat(listing[offset..offset + limit], Walk(listing, offset + limit, limit));
      assert listing[offset..offset + limit] + listing[offset + limit..] == listing[offset..];
    } else {
      ConsConcat(listing[offset..], []);
    }
  }

  lemma WalkStep(listing: seq<Digest>, offset: nat, limit: int)
    requires limit > 0 && offset <= |listing|
    ensures Walk(listing, offset, limit) ==
      if offset + limit < |listing| then [listing[offset..offset + limit]] + Walk(listing, offset + limit, limit)
      else [listing[offset..]] + []
  {
    PageExactly(listing, offset, limit);
    if offset + limit >= |listing| { assert listing[offset..|listing|] == listing[offset..]; }
  }

  /** Walking the pages, with any limit, lists every live item exactly once and nothing else. */
  lemma WalkListsEachOnce(g: Reg, keep: bool, limit: int, h: Digest)
    requires RegOk(g, keep) && limit > 0
    ensures Occurrences(Concat(Walk(g.listing, 0, limit)), h) == if h in g.ulids then 1 else 0
  {
    hide Walk, Concat, Ascending;
    WalkConcat(g.listing, 0, limit);
    assert g.listing[0..] == g.listing;
    ListedOnce(g.listing, h);
  }

  function Occurrences(s: seq<Digest>, h: Digest): nat {
    if s == [] then 0 else (if s[0] == h then 1 else 0) + Occurrences(s[1..], h)
  }

  lemma {:induction false} ListedOnce(s: seq<Digest>, h: Digest)
    requires Ascending(s)
    ensures Occurrences(s, h) == if h in s then 1 else 0
  {
    if s != [] {
      AscendingTail(s);
      ListedOnce(s[1..], h);
    }
  }

  // ----- dump and load

  function DumpOf(g: Reg): Dump { Dump(g.metadata, g.ulids, g.deleted, g.sizes) }

  /** The live entries of a loaded registry: an item that comes without an identifier cannot be loaded. */
  predicate Loadable(d: Dump) {
    d.metadata.Keys <= d.ulids.Keys
  }

  function KeptUlids(d: Dump): map<Digest, Ulid> { map h | h in d.ulids && h in d.metadata :: d.ulids[h] }

  function SizesOf(d: Dump): map<Digest, int> { map h | h in d.metadata :: if h in d.sizes then d.sizes[h] else -1 }

  /** What loading makes of a dump. */
  ghost predicate LoadedAs(d: Dump, g: Reg) {
    && g.metadata == d.metadata && g.ulids == KeptUlids(d) && g.deleted == d.deleted && g.sizes == SizesOf(d)
    && (forall h :: h in g.ulids ==> g.ulids[h] in g.resolve && g.resolve[g.ulids[h]] == h)
    && (forall u :: u in g.resolve ==> g.resolve[u] in g.ulids && g.ulids[g.resolve[u]] == u)
    && Ascending(g.listing) && (forall h :: h in g.listing <==> h in g.metadata)
  }

  /** An item of which the dump tells no size has size -1; identifiers and sizes of other hashes are dropped. */
  lemma LoadedItems(d: Dump, g: Reg, h: Digest)
    requires LoadedAs(d, g)
    ensures h in g.sizes <==> h in d.metadata
    ensures h in d.metadata ==> g.sizes[h] == if h in d.sizes then d.sizes[h] else -1
    ensures h in g.ulids <==> h in d.metadata && h in d.ulids
    ensures h in g.ulids ==> g.ulids[h] == d.ulids[h]
  {
  }

  /** Both registries answer alike about live and deleted items, and the second knows no identifier the first
      does not. */
  ghost predicate Alike(g: Reg, k: Reg) {
    && g.metadata == k.metadata && g.ulids == k.ulids && g.deleted == k.deleted && g.sizes == k.sizes
    && g.listing == k.listing
    && (forall u :: u in k.resolve ==> u in g.resolve && g.resolve[u] == k.resolve[u])
    && (forall h :: h in k.ulids ==> k.ulids[h] in k.resolve)
  }

  /** Loading a dump gives back a registry that answers alike. */
  lemma DumpThenLoad(g: Reg, k: Reg)
    requires RegOk(g, false) && LoadedAs(DumpOf(g), k)
    ensures Loadable(DumpOf(g)) && Alike(g, k) && RegOk(k, false)
  {
    assert KeptUlids(DumpOf(g)) == g.ulids;
    assert SizesOf(DumpOf(g)) == g.sizes;
    forall u | u in k.resolve ensures u in g.resolve && g.resolve[u] == k.resolve[u] {
      assert g.ulids[k.resolve[u]] == u;
    }
    ListingUnique(g.listing, k.listing);
  }

  function Answers(g: Reg, keep: bool, ops: seq<Op>): seq<Answer>
    decreases |ops|
  {
    if ops == [] then [] else [Step(g, keep, ops[0]).1] + Answers(Step(g, keep, ops[0]).0, keep, ops[1..])
  }

  /** The identifier issued for a new item is not one that only the first registry remembers. */
  predicate NotRetired(g: Reg, k: Reg, op: Op) {
    op.New? && op.hash !in g.ulids && op.ulid in g.resolve ==> op.ulid in k.resolve
  }

  predicate NoneRetired(g: Reg, k: Reg, keep: bool, ops: seq<Op>)
    decreases |ops|
  {
    ops == [] || (NotRetired(g, k, ops[0]) && NoneRetired(Step(g, keep, ops[0]).0, Step(k, keep, ops[0]).0, keep, ops[1..]))
  }

  lemma AlikeStep(g: Reg, k: Reg, keep: bool, op: Op)
    requires Alike(g, k)
    ensures Step(g, keep, op).1 == Step(k, keep, op).1 <==> NotRetired(g, k, op)
    ensures NotRetired(g, k, op) ==> Alike(Step(g, keep, op).0, Step(k, keep, op).0)
  {
    hide Insert, Remove;
  }

  /** A loaded registry gives the same answers as the one that was dumped to every later run, exactly when the run
      issues no identifier of an item deleted before the dump. */
  lemma {:induction false} LoadedAnswersAlike(g: Reg, k: Reg, keep: bool, ops: seq<Op>)
    requires Alike(g, k)
    ensures Answers(g, keep, ops) == Answers(k, keep, ops) <==> NoneRetired(g, k, keep, ops)
    ensures NoneRetired(g, k, keep, ops) ==> Alike(Run(g, keep, ops), Run(k, keep, ops))
    decreases |ops|
  {
    hide Alike, Step, NotRetired;
    if ops != [] {
      var g', k' := Step(g, keep, ops[0]), Step(k, keep, ops[0]);
      AlikeStep(g, k, keep, ops[0]);
      ConsEqual(g'.1, k'.1, Answers(g'.0, keep, ops[1..]), Answers(k'.0, keep, ops[1..]));
      if NotRetired(g, k, ops[0]) {
        LoadedAnswersAlike(g'.0, k'.0, keep, ops[1..]);
      }
    }
  }

  lemma ConsEqual(x: Answer, y: Answer, s: seq<Answer>, t: seq<Answer>)
    ensures [x] + s == [y] + t <==> x == y && s == t
  {
    if [x] + s == [y] + t {
      assert ([x] + s)[0] == x && ([y] + t)[0] == y && ([x] + s)[1..] == s && ([y] + t)[1..] == t;
    }
  }

  /** A stale identifier is told apart: issued, its item deleted, it is refused in the same run but taken after a
      reload. */
  lemma StaleUlid(k: Reg)
    requires LoadedAs(DumpOf(Run(Reg(map[], map[], map[], [], {}, map[]), false, [New(1, "m", 0, "u"), Delete(1)])), k)
    ensures var g := Run(Reg(map[], map[], map[], [], {}, map[]), false, [New(1, "m", 0, "u"), Delete(1)]);
      Added(g, 2, "n", 0, "u").1 == Raised(AlreadyUploaded("u")) && Added(k, 2, "n", 0, "u").1 == Ok("u")
  {
    var start: Reg := Reg(map[], map[], map[], [], {}, map[]);
    var a, b := New(1, "m", 0, "u"), Delete(1);
    assert [a, b][1..] == [b] && [b][1..] == [];
    var one := Step(start, false, a).0;
    var two := Step(one, false, b).0;
    assert Run(start, false, [a, b]) == two;
    assert two.ulids == map[] && "u" in two.resolve;
    assert KeptUlids(DumpOf(two)) == map[];
  }

  // ----- the registry object

  class InMemRegistry {
    const keepDeletedMetadata: bool
    var metadataForHashes: map<Digest, Metadata>
    var ulidsForHashes: map<Digest, Ulid>
    var hashesForUlids: map<Ulid, Digest>
    var hashesOk: seq<Digest>
    var deleted: set<Digest>
    var sizesForHash: map<Digest, int>
    // Every hash there ever was, once for each time it was added.
    var hashes: seq<Digest>

    function Abs(): Reg
      reads this
    {
      Reg(metadataForHashes, ulidsForHashes, hashesForUlids, hashesOk, deleted, sizesForHash)
    }

    constructor (g: Reg, known: seq<Digest>, keep: bool)
      ensures Abs() == g && hashes == known && keepDeletedMetadata == keep
    {
      keepDeletedMetadata, metadataForHashes, ulidsForHashes := keep, g.metadata, g.ulids;
      hashesForUlids, hashesOk, deleted, sizesForHash, hashes := g.resolve, g.listing, g.deleted, g.sizes, known;
    }

    /** Loading succeeds exactly when every item has an identifier and no two items share one; without any metadata, not
        even an empty dictionary of them, neither identifiers nor sizes may be given. */
    static method Load(metadata: Option<map<Digest, Metadata>>, ulids: map<Digest, Ulid>, deleted: set<Digest>, sizes: map<Digest, int>,
                       keep: bool)
      returns (r: Outcome<InMemRegistry, RegistryError>)
      ensures var d := Dump(if metadata.Some? then metadata.value else map[], ulids, deleted, sizes);
        && (r.Ok? <==>
              && (metadata.Some? || (ulids == map[] && sizes == map[]))
              && Loadable(d) && forall h, k :: h in d.metadata && k in d.metadata && d.ulids[h] == d.ulids[k] ==> h == k)
        && (r.Ok? ==> fresh(r.value) && r.value.keepDeletedMetadata == keep && LoadedAs(d, r.value.Abs()))
        && (r.Ok? ==> multiset(r.value.hashes) == multiset(d.metadata.Keys))
        && (metadata.None? && (ulids != map[] || sizes != map[]) ==> r == Raised(NoMetadata))
        && (r == Raised(NoUlid) <==> metadata.Some? && !Loadable(d))
    {
      if metadata.None? && (ulids != map[] || sizes != map[]) { return Raised(NoMetadata); }
      var d := Dump(if metadata.Some? then metadata.value else map[], ulids, deleted, sizes);
      if !(d.metadata.Keys <= d.ulids.Keys) { return Raised(NoUlid); }
      var kept := KeptUlids(d);
      var resolve: map<Ulid, Digest> := map[];
      var listing: seq<Digest>, todo := [], d.metadata.Keys;
      while todo != {}
        invariant todo <= d.metadata.Keys && Ascending(listing)
        invariant forall h :: h in listing <==> h in d.metadata && h !in todo
        invariant forall h :: h in listing ==> kept[h] in resolve && resolve[kept[h]] == h
        invariant forall u :: u in resolve ==> resolve[u] in listing && kept[resolve[u]] == u
        decreases todo
      {
        var h :| h in todo;
        if kept[h] in resolve {
          assert resolve[kept[h]] != h && d.ulids[resolve[kept[h]]] == d.ulids[h];
          return Raised(UlidsNotUnique);
        }
        InsertAscending(listing, h);
        listing, resolve, todo := Insert(listing, h), resolve[kept[h] := h], todo - {h};
      }
      forall h, k | h in d.metadata && k in d.metadata && d.ulids[h] == d.ulids[k] ensures h == k {
        assert kept[h] == kept[k] && h in listing && k in listing;
      }
      var hashes := KeysOf(d.metadata.Keys);
      var registry := new InMemRegistry(Reg(d.metadata, kept, resolve, listing, d.deleted, SizesOf(d)), hashes, keep);
      return Ok(registry);
    }

    static method KeysOf(keys: set<Digest>) returns (hashes: seq<Digest>)
      ensures multiset(hashes) == multiset(keys)
    {
      hashes := [];
      var todo := keys;
      while todo != {}
        invariant multiset(hashes) + multiset(todo) == multiset(keys)
        decreases todo
      {
        var h :| h in todo;
        hashes, todo := hashes + [h], todo - {h};
      }
    }

    method NewItem(hash: Digest, metadata: Metadata, size: int, ulid: Ulid) returns (r: Outcome<Ulid, RegistryError>)
      modifies this
      ensures (Abs(), r) == Added(old(Abs()), hash, metadata, size, ulid)
      ensures hashes == old(hashes) + if r.Ok? then [hash] else []
    {
      if hash in ulidsForHashes { return Raised(AlreadyUploaded(ulidsForHashes[hash])); }
      if ulid in hashesForUlids { return Raised(AlreadyUploaded(ulid)); }
      hashesForUlids := hashesForUlids[ulid := hash];
      ulidsForHashes := ulidsForHashes[hash := ulid];
      metadataForHashes := metadataForHashes[hash := metadata];
      hashes := hashes + [hash];
      hashesOk := Insert(hashesOk, hash);
      sizesForHash := sizesForHash[hash := size];
      deleted := deleted - {hash};
      return Ok(ulid);
    }

    method DeleteItem(hash: Digest) returns (r: Option<bool>)
      modifies this
      ensures (Abs(), r) == Removed(old(Abs()), keepDeletedMetadata, hash) && hashes == old(hashes)
    {
      if hash !in ulidsForHashes { return None; }
      ulidsForHashes := ulidsForHashes - {hash};
      hashesOk := Remove(hashesOk, hash);
      deleted := deleted + {hash};
      if !keepDeletedMetadata {
        metadataForHashes := metadataForHashes - {hash};
        sizesForHash := sizesForHash - {hash};
        return Some(true);
      }
      return Some(false);
    }

    method ListItems(offset: int, limit: int) returns (r: Outcome<seq<Metadata>, RegistryError>)
      requires RegOk(Abs(), keepDeletedMetadata)
      ensures ResolveQuery(hashesOk, offset, limit).Raised? ==> r == Raised(IndexError(offset))
      ensures var page := ResolveQuery(hashesOk, offset, limit);
        page.Ok? ==>
          && r.Ok? && |r.value| == |page.value.items|
          && forall i :: 0 <= i < |r.value| ==>
               page.value.items[i] in metadataForHashes && r.value[i] == metadataForHashes[page.value.items[i]]
    {
      var page := ResolveQuery(hashesOk, offset, limit);
      if page.Raised? { return Raised(page.error); }
      var items := page.value.items;
      WindowOf(hashesOk, offset, limit);
      var forHash := metadataForHashes;
      return Ok(seq(|items|, i requires 0 <= i < |items| && items[i] in forHash => forHash[items[i]]));
    }
  }

  lemma WindowOf(s: seq<Digest>, offset: nat, size: nat)
    ensures forall i :: 0 <= i < |Window(s, offset, size)| ==> Window(s, offset, size)[i] in s
  {
  }
}
