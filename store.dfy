/** The /scrape-html handler: scrape one page, merge its villages into the stored records, save. */
module Store {
  import opened Records
  import opened Dedup
  import opened Scrape

  /** The contents of extracted_villages.json when it exists. */
  datatype Option<T> = None | Some(value: T)

  /** The stored records the handler starts from: none when the file does not exist. */
  function StoredRecords(file: Option<seq<Record>>): seq<Record>
  {
    match file
    case None => []
    case Some(records) => records
  }

  /** Stored records first, the new batch behind them, then duplicates removed over the whole. */
  function Merge(existing: seq<Record>, batch: seq<Record>): seq<Record>
  {
    Deduplicated(existing + batch)
  }

  /** The handler: the store is the file's contents passed in, and what it writes back is returned
      as saved; villages is the scraped batch that the response carries. */
  method ScrapeHtml(file: Option<seq<Record>>, page: Page) returns (saved: seq<Record>, villages: seq<Record>)
    ensures villages == FilterVillages(page, page.villageOptions)
    ensures saved == Merge(StoredRecords(file), villages)
    ensures KeysDistinct(saved)
    ensures KeysOf(saved) == KeysOf(StoredRecords(file)) + KeysOf(villages)
  {
    villages := ScrapeVillages(page);
    var allVillages: seq<Record> := [];
    if file.Some? {
      allVillages := file.value;
    }
    allVillages := allVillages + villages;
    allVillages := RemoveDuplicates(allVillages);
    saved := allVillages;
    DeduplicatedKeys(StoredRecords(file) + villages);
    KeysOfAppend(StoredRecords(file), villages);
  }

  /** Whatever the store held before, duplicates included, the merged result has none,
      and every identifier of the store and of the batch is in it. */
  lemma MergeDistinct(existing: seq<Record>, batch: seq<Record>)
    ensures KeysDistinct(Merge(existing, batch))
    ensures KeysOf(Merge(existing, batch)) == KeysOf(existing) + KeysOf(batch)
  {
    DeduplicatedDistinct(existing + batch);
    DeduplicatedKeys(existing + batch);
    KeysOfAppend(existing, batch);
  }

  /** First write wins: for an identifier the store already has, the merged record is the store's
      first record with it; for any other identifier, it is the batch's first record with it. */
  lemma MergeFirstWriteWins(existing: seq<Record>, batch: seq<Record>)
    ensures forall j :: 0 <= j < |Merge(existing, batch)| ==>
      if Key(Merge(existing, batch)[j]) in KeysOf(existing) then FirstOfItsKey(existing, Merge(existing, batch)[j])
      else FirstOfItsKey(batch, Merge(existing, batch)[j])
  {
    var m := Merge(existing, batch);
    DeduplicatedFirstWins(existing + batch);
    forall j | 0 <= j < |m|
      ensures if Key(m[j]) in KeysOf(existing) then FirstOfItsKey(existing, m[j]) else FirstOfItsKey(batch, m[j])
    {
      FirstOfItsKeySplit(existing, batch, m[j]);
    }
  }

  /** A duplicate-free store comes through a merge unchanged at the front; behind it come only
      batch records whose identifiers the store lacked, in batch order. */
  lemma MergeKeepsStore(existing: seq<Record>, batch: seq<Record>)
    requires KeysDistinct(existing)
    ensures |existing| <= |Merge(existing, batch)|
    ensures Merge(existing, batch)[..|existing|] == existing
    ensures IsSubsequence(Merge(existing, batch)[|existing|..], batch)
    ensures forall j :: |existing| <= j < |Merge(existing, batch)| ==> Key(Merge(existing, batch)[j]) !in KeysOf(existing)
  {
    ScanAppend([], existing, batch);
    DeduplicatedFixpoint(existing);
    ScanPrefix(existing, batch);
    ScanTail(existing, batch);
  }

  /** Whatever the store held, its deduplicated records come through a merge unchanged at the
      front; behind them come only batch records whose identifiers the store lacked, in batch order. */
  lemma MergeStoreFirst(existing: seq<Record>, batch: seq<Record>)
    ensures |Deduplicated(existing)| <= |Merge(existing, batch)|
    ensures Merge(existing, batch)[..|Deduplicated(existing)|] == Deduplicated(existing)
    ensures IsSubsequence(Merge(existing, batch)[|Deduplicated(existing)|..], batch)
    ensures forall j :: |Deduplicated(existing)| <= j < |Merge(existing, batch)| ==>
      Key(Merge(existing, batch)[j]) !in KeysOf(existing)
  {
    ScanAppend([], existing, batch);
    ScanPrefix(Deduplicated(existing), batch);
    ScanTail(Deduplicated(existing), batch);
    DeduplicatedKeys(existing);
  }

  /** Merging the store with one batch and then another is merging it once with both batches:
      the result depends only on the submission history. */
  lemma MergeHistory(existing: seq<Record>, first: seq<Record>, second: seq<Record>)
    ensures Merge(Merge(existing, first), second) == Merge(existing, first + second)
  {
    var m := Merge(existing, first);
    calc {
      Merge(m, second);
      Scan([], m + second);
      { ScanAppend([], m, second); }
      Scan(Scan([], m), second);
      { DeduplicatedDistinct(existing + first); DeduplicatedFixpoint(m); }
      Scan(m, second);
      { ScanAppend([], existing + first, second); }
      Scan([], existing + first + second);
      { assert existing + first + second == existing + (first + second); }
      Merge(existing, first + second);
    }
  }

  /** Submitting the same batch twice in a row leaves the store as one submission did. */
  lemma MergeIdempotent(existing: seq<Record>, batch: seq<Record>)
    ensures Merge(Merge(existing, batch), batch) == Merge(existing, batch)
  {
    var m := Merge(existing, batch);
    ScanAppend([], m, batch);
    MergeDistinct(existing, batch);
    DeduplicatedFixpoint(m);
    ScanCovered(m, batch);
  }

  /** The page of the district "Bengaluru", taluk "Anekal" and hobli "X", with the villages
      Alpha and Beta around the placeholder option. */
  function SamplePage(): Page
  {
    Page(Selected("1", "Bengaluru"), Selected("2", "Anekal"), Selected("3", "X"),
         [SelectOption("10", "Alpha"), SelectOption("0", "Select Village"), SelectOption("11", "Beta")])
  }

  /** Scraping the sample page into a missing file stores Alpha and Beta, and submitting
      the same page again leaves those two records, not four. */
  lemma SampleSubmittedTwice()
    ensures FilterVillages(SamplePage(), SamplePage().villageOptions)
            == [Stamp(SamplePage(), SelectOption("10", "Alpha")), Stamp(SamplePage(), SelectOption("11", "Beta"))]
    ensures Merge([], FilterVillages(SamplePage(), SamplePage().villageOptions))
            == FilterVillages(SamplePage(), SamplePage().villageOptions)
    ensures |Merge(Merge([], FilterVillages(SamplePage(), SamplePage().villageOptions)),
                   FilterVillages(SamplePage(), SamplePage().villageOptions))| == 2
  {
    var page := SamplePage();
    var opts := page.villageOptions;
    var alpha, beta := Stamp(page, opts[0]), Stamp(page, opts[2]);
    assert opts[..1][..0] == [];
    assert FilterVillages(page, opts[..1]) == [alpha];
    assert opts[..2][..1] == opts[..1];
    assert FilterVillages(page, opts[..2]) == [alpha];
    assert opts[..2] == opts[..|opts| - 1];
    assert FilterVillages(page, opts) == [alpha, beta];
    assert Key(alpha) != Key(beta) by {
      assert Key(alpha) == "1-2-3-10" && Key(beta) == "1-2-3-11";
    }
    assert KeysDistinct([alpha, beta]);
    assert [] + [alpha, beta] == [alpha, beta];
    DeduplicatedFixpoint([alpha, beta]);
    MergeIdempotent([], [alpha, beta]);
  }
}
