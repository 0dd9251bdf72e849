/** What normalising a wallet header keeps, and that a second pass has nothing to do. */
module WalletLaws {
  import opened Basics
  import opened Text
  import opened Domains
  import opened Transactions
  import opened AccountIds
  import opened AccountIdLaws
  import opened Wallet

  ghost predicate CodecsOk(c: Codecs) { IndexOk(c.ix) && Lawful(c.b) }

  // ----- the book, whatever the judgement -----

  /** The entries that are not dropped, in order. */
  function Survivors(judge: Judgement, entries: seq<BookEntry>): seq<BookEntry> {
    if entries == [] then []
    else if judge(entries[0]).Drop? then Survivors(judge, entries[1..])
    else [entries[0]] + Survivors(judge, entries[1..])
  }

  /** Kept and ignored entries together are all of them; the kept ones are the survivors in order, each
      with its own canonical address. */
  lemma {:induction false} BookKeeps(judge: Judgement, entries: seq<BookEntry>, at: nat)
    requires NormalizeBook(judge, entries, at).Ok?
    ensures var out := NormalizeBook(judge, entries, at).value;
      var from := Survivors(judge, entries);
      && |out.kept| + out.ignored == |entries|
      && |out.kept| == |from|
      && forall i :: 0 <= i < |from| ==>
        judge(from[i]).Keep? && out.kept[i] == from[i].WithAddress(judge(from[i]).canonical)
    decreases |entries|
  {
    if entries != [] {
      BookKeeps(judge, entries[1..], at + 1);
      var (from, rest) := (Survivors(judge, entries), Survivors(judge, entries[1..]));
      if !judge(entries[0]).Drop? {
        assert forall i :: 1 <= i < |from| ==> from[i] == rest[i - 1];
      }
    }
  }

  /** Normalisation succeeds exactly when no entry is refused, and reports a change exactly when some
      entry is dropped or differs, white space aside, from its canonical address. */
  lemma {:induction false} BookOutcome(judge: Judgement, entries: seq<BookEntry>, at: nat)
    ensures var r := NormalizeBook(judge, entries, at);
      && (r.Ok? <==> forall i :: 0 <= i < |entries| ==> !judge(entries[i]).Refuse?)
      && (r.Ok? ==>
           (r.value.changed
            <==> exists i :: 0 <= i < |entries| && judge(entries[i]) != Keep(Trim(entries[i].address))))
    decreases |entries|
  {
    if entries != [] {
      BookOutcome(judge, entries[1..], at + 1);
      assert forall i :: 1 <= i < |entries| ==> entries[i] == entries[1..][i - 1];
    }
  }

  /** A book of canonical addresses is left alone. */
  lemma {:induction false} CanonicalBookIsFixed(judge: Judgement, entries: seq<BookEntry>, at: nat)
    requires forall i :: 0 <= i < |entries| ==>
      judge(entries[i]) == Keep(entries[i].address) && Trim(entries[i].address) == entries[i].address
    ensures NormalizeBook(judge, entries, at) == Ok(BookOut(entries, false, 0))
    decreases |entries|
  {
    if entries != [] {
      CanonicalBookIsFixed(judge, entries[1..], at + 1);
      assert [entries[0]] + entries[1..] == entries;
    }
  }

  /** When no change is reported every entry was canonical up to surrounding white space, and the book is
      the same one exactly when no address carried any: a padded address is rewritten without report. */
  lemma UnreportedRewrite(judge: Judgement, entries: seq<BookEntry>, at: nat)
    requires NormalizeBook(judge, entries, at).Ok? && !NormalizeBook(judge, entries, at).value.changed
    ensures var kept := NormalizeBook(judge, entries, at).value.kept;
      && |kept| == |entries|
      && (forall i :: 0 <= i < |entries| ==> kept[i] == entries[i].WithAddress(Trim(entries[i].address)))
      && (kept == entries <==> forall i :: 0 <= i < |entries| ==> Trim(entries[i].address) == entries[i].address)
  {
    var kept := NormalizeBook(judge, entries, at).value.kept;
    UnreportedEntry(judge, entries, at, 0);
    forall i | 0 <= i < |entries|
      ensures kept[i] == entries[i].WithAddress(Trim(entries[i].address))
    {
      UnreportedEntry(judge, entries, at, i);
    }
    SameBookByEntry(entries, kept);
  }

  lemma {:induction false} UnreportedEntry(judge: Judgement, entries: seq<BookEntry>, at: nat, i: nat)
    requires NormalizeBook(judge, entries, at).Ok? && !NormalizeBook(judge, entries, at).value.changed
    ensures var kept := NormalizeBook(judge, entries, at).value.kept;
      |kept| == |entries| && (i < |entries| ==> kept[i] == entries[i].WithAddress(Trim(entries[i].address)))
    decreases |entries|
  {
    if entries != [] {
      UnreportedEntry(judge, entries[1..], at + 1, if i == 0 then 0 else i - 1);
    }
  }

  lemma SameBookByEntry(entries: seq<BookEntry>, kept: seq<BookEntry>)
    requires |kept| == |entries|
    requires forall i :: 0 <= i < |entries| ==> kept[i] == entries[i].WithAddress(Trim(entries[i].address))
    ensures kept == entries <==> forall i :: 0 <= i < |entries| ==> Trim(entries[i].address) == entries[i].address
  {
  }

  // ----- the book, judged by the codecs -----

  /** One kept entry against the entry it came from: same kind, same label, same account, and canonical. */
  ghost predicate KeptFrom(c: Codecs, e: BookEntry, kept: BookEntry) {
    && kept.Name() == e.Name() && kept.AddressOnly? == e.AddressOnly?
    && EntryId(c, e).Ok? && EntryId(c, kept) == EntryId(c, e)
    && kept.address == ToBech32(c.b, EntryId(c, e).value) && Trim(kept.address) == kept.address
    && Judge(c, kept) == Keep(kept.address)
  }

  lemma CanonicalEntry(c: Codecs, e: BookEntry)
    requires CodecsOk(c) && Judge(c, e).Keep?
    ensures KeptFrom(c, e, e.WithAddress(Judge(c, e).canonical))
  {
    Bech32Shape(c.b, EntryId(c, e).value);
    Bech32Form(c.ix, c.b, EntryId(c, e).value);
  }

  /** Order, labels and account ids of the kept entries are those of the survivors. */
  lemma BookKeepsAccounts(c: Codecs, entries: seq<BookEntry>, at: nat)
    requires CodecsOk(c) && NormalizeBook(JudgeBy(c), entries, at).Ok?
    ensures var out := NormalizeBook(JudgeBy(c), entries, at).value;
      var from := Survivors(JudgeBy(c), entries);
      && |out.kept| + out.ignored == |entries|
      && |out.kept| == |from|
      && forall i :: 0 <= i < |from| ==> KeptFrom(c, from[i], out.kept[i])
  {
    BookKeeps(JudgeBy(c), entries, at);
    var from := Survivors(JudgeBy(c), entries);
    forall i | 0 <= i < |from|
      ensures KeptFrom(c, from[i], NormalizeBook(JudgeBy(c), entries, at).value.kept[i])
    {
      assert JudgeBy(c)(from[i]) == Judge(c, from[i]);
      CanonicalEntry(c, from[i]);
    }
  }

  lemma KeptBookIsFixed(c: Codecs, entries: seq<BookEntry>)
    requires CodecsOk(c) && NormalizeBook(JudgeBy(c), entries, 0).Ok?
    ensures var kept := NormalizeBook(JudgeBy(c), entries, 0).value.kept;
      NormalizeBook(JudgeBy(c), kept, 0) == Ok(BookOut(kept, false, 0))
  {
    BookKeepsAccounts(c, entries, 0);
    var kept := NormalizeBook(JudgeBy(c), entries, 0).value.kept;
    forall i | 0 <= i < |kept|
      ensures JudgeBy(c)(kept[i]) == Keep(kept[i].address) && Trim(kept[i].address) == kept[i].address
    {
      assert KeptFrom(c, Survivors(JudgeBy(c), entries)[i], kept[i]);
    }
    CanonicalBookIsFixed(JudgeBy(c), kept, 0);
  }

  /** A book that normalisation rewrites without reporting a change. */
  lemma PaddedAddress(c: Codecs, id: AccountId)
    requires CodecsOk(c)
    ensures var address := ToBech32(c.b, id);
      && NormalizeBook(JudgeBy(c), [AddressOnly(" " + address)], 0) == Ok(BookOut([AddressOnly(address)], false, 0))
      && [AddressOnly(address)] != [AddressOnly(" " + address)]
  {
    var address := ToBech32(c.b, id);
    var e := AddressOnly(" " + address);
    Bech32Shape(c.b, id);
    Bech32Form(c.ix, c.b, id);
    TrimPadded(address);
    assert JudgeBy(c)(e) == Keep(address);
    assert [e][1..] == [] && [AddressOnly(address)] + [] == [AddressOnly(address)];
    assert NormalizeBook(JudgeBy(c), [], 1) == Ok(BookOut([], false, 0));
    assert |e.address| == |address| + 1;
  }

  lemma TrimPadded(s: string)
    requires Trimmed(s)
    ensures Trim(" " + s) == s
  {
    assert (" " + s)[1..] == s;
    TrimFixed(s);
  }

  // ----- the header -----

  lemma SameSecrets(keys: Keys, g: Header, h: Header)
    requires g.derivationPath == h.derivationPath && g.derivationIndex == h.derivationIndex
    requires g.masterSeedHex == h.masterSeedHex && g.signingKeyHex == h.signingKeyHex
    ensures IdFromSource(keys, g) == IdFromSource(keys, h)
  {
  }

  /** A header that differs only in carrying the printed form of its own identity keeps that identity. */
  lemma PrintedIdentity(c: Codecs, source: Result<Option<AccountId>, WalletError>, g: Header, h: Header)
    requires Identify(c, source, h).Ok?
    requires g.domain == h.domain && g.accountIdHex == h.accountIdHex
    requires Trim(g.accountIdHuman) == g.accountIdHuman
    requires ParseForMigration(c.ix, c.b, g.accountIdHuman) == Ok(Identify(c, source, h).value)
    ensures Identify(c, source, g) == Identify(c, source, h)
  {
  }

  /** The identity survives: the printed id that normalisation writes is read back as the same account. */
  lemma SameIdentity(c: Codecs, h: Header, human: string, book: seq<BookEntry>, ignored: nat)
    requires CodecsOk(c) && ResolveId(c, h).Ok? && human == Render(c.ix, ResolveId(c, h).value)
    ensures ResolveId(c, h.(accountIdHuman := human, addressBook := book, ignoredEntries := ignored)) == ResolveId(c, h)
  {
    var id := ResolveId(c, h).value;
    var again := h.(accountIdHuman := human, addressBook := book, ignoredEntries := ignored);
    RenderedShape(c.ix, id);
    RenderRoundTrip(c.ix, c.b, id);
    SameSecrets(c.keys, again, h);
    PrintedIdentity(c, IdFromSource(c.keys, h), again, h);
  }

  /** Normalising twice: the second pass succeeds with the same identity, changes nothing that is
      persisted, reports no change, and drops nothing. */
  lemma Idempotent(c: Codecs, h: Header)
    requires CodecsOk(c) && Normalize(c, h).Ok?
    ensures var once := Normalize(c, h).value.0;
      && ResolveId(c, once) == ResolveId(c, h)
      && Normalize(c, once) == Ok((once.(ignoredEntries := 0), false))
  {
    var once := Normalize(c, h).value.0;
    SameIdentity(c, h, once.accountIdHuman, once.addressBook, once.ignoredEntries);
    KeptBookIsFixed(c, h.addressBook);
  }
}
