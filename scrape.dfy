/** The option filter of scrapeVillages, over the values its selector queries return. */
module Scrape {
  import opened Records

  /** A selected dropdown entry: the control's value and the text of its selected option. */
  datatype Selected = Selected(id: string, text: string)

  /** One option of the village dropdown: its value attribute and its text. */
  datatype SelectOption = SelectOption(value: string, text: string)

  /** What the four selector queries of scrapeVillages yield for one page:
      the selected district, taluk and hobli, and the village options in document order. */
  datatype Page = Page(district: Selected, taluk: Selected, hobli: Selected, villageOptions: seq<SelectOption>)

  /** The value of the placeholder "Select Village" option, which is never emitted. */
  const Sentinel: string := "0"

  /** The record emitted for one village option: the shared selections plus the option. */
  function Stamp(page: Page, o: SelectOption): Record
  {
    Record(page.district.id, page.district.text, page.taluk.id, page.taluk.text,
           page.hobli.id, page.hobli.text, o.value, o.text)
  }

  /** The records emitted for options, in order. */
  function FilterVillages(page: Page, options: seq<SelectOption>): seq<Record>
    decreases |options|
  {
    if options == [] then []
    else
      var o := options[|options| - 1];
      FilterVillages(page, options[..|options| - 1]) + (if o.value != Sentinel then [Stamp(page, o)] else [])
  }

  /** The village option a record was stamped from. */
  function OptionOf(r: Record): SelectOption
  {
    SelectOption(r.villageId, r.villageValue)
  }

  function OptionsOf(rs: seq<Record>): seq<SelectOption>
  {
    seq(|rs|, i requires 0 <= i < |rs| => OptionOf(rs[i]))
  }

  /** The `.each` loop of scrapeVillages, pushing one record per non-placeholder option. */
  method ScrapeVillages(page: Page) returns (villages: seq<Record>)
    ensures villages == FilterVillages(page, page.villageOptions)
    ensures forall j :: 0 <= j < |villages| ==> SharesSelection(page, villages[j])
    ensures IsSubsequence(OptionsOf(villages), page.villageOptions)
  {
    var options := page.villageOptions;
    villages := [];
    for index := 0 to |options|
      invariant villages == FilterVillages(page, options[..index])
    {
      var element := options[index];
      var villageId := element.value;
      var villageValue := element.text;
      if villageId != Sentinel {
        villages := villages + [Record(page.district.id, page.district.text, page.taluk.id, page.taluk.text,
                                       page.hobli.id, page.hobli.text, villageId, villageValue)];
      }
      assert options[..index + 1][..index] == options[..index];
    }
    assert options[..|options|] == options;
    FilterVillagesShared(page, options);
    FilterVillagesOrder(page, options);
  }

  /** r carries the page's district, taluk and hobli and a non-placeholder village. */
  predicate SharesSelection(page: Page, r: Record)
  {
    r.districtId == page.district.id && r.districtValue == page.district.text
    && r.talukId == page.taluk.id && r.talukValue == page.taluk.text
    && r.hobliId == page.hobli.id && r.hobliValue == page.hobli.text
    && r.villageId != Sentinel
  }

  lemma OptionsOfAppend(a: seq<Record>, b: seq<Record>)
    ensures OptionsOf(a + b) == OptionsOf(a) + OptionsOf(b)
  {
  }

  /** Filtering a concatenation filters each part. */
  lemma {:induction false} FilterVillagesAppend(page: Page, a: seq<SelectOption>, b: seq<SelectOption>)
    ensures FilterVillages(page, a + b) == FilterVillages(page, a) + FilterVillages(page, b)
    decreases |b|
  {
    if b == [] {
      assert a + b == a;
    } else {
      assert (a + b)[..|a + b| - 1] == a + b[..|b| - 1];
      FilterVillagesAppend(page, a, b[..|b| - 1]);
    }
  }

  /** Every emitted record carries the same district, taluk and hobli, those of the page,
      and no emitted record has the placeholder village value. */
  lemma {:induction false} FilterVillagesShared(page: Page, options: seq<SelectOption>)
    ensures forall j :: 0 <= j < |FilterVillages(page, options)| ==> SharesSelection(page, FilterVillages(page, options)[j])
  {
    if options != [] {
      FilterVillagesShared(page, options[..|options| - 1]);
    }
  }

  /** The emitted villages are options of the page, in document order. */
  lemma {:induction false} FilterVillagesOrder(page: Page, options: seq<SelectOption>)
    ensures IsSubsequence(OptionsOf(FilterVillages(page, options)), options)
  {
    if options != [] {
      var init, o := options[..|options| - 1], options[|options| - 1];
      var prev := FilterVillages(page, init);
      FilterVillagesOrder(page, init);
      if o.value != Sentinel {
        OptionsOfAppend(prev, [Stamp(page, o)]);
        assert OptionsOf([Stamp(page, o)]) == [o];
        var opts := OptionsOf(prev) + [o];
        assert opts[..|opts| - 1] == OptionsOf(prev);
      } else {
        assert FilterVillages(page, options) == prev;
      }
    }
  }

  /** Each option with a real value is emitted as often as the page lists it; the placeholder never is. */
  lemma {:induction false} FilterVillagesExact(page: Page, options: seq<SelectOption>)
    ensures forall o :: multiset(OptionsOf(FilterVillages(page, options)))[o]
                        == if o.value == Sentinel then 0 else multiset(options)[o]
  {
    if options != [] {
      var init, last := options[..|options| - 1], options[|options| - 1];
      var prev := FilterVillages(page, init);
      FilterVillagesExact(page, init);
      assert options == init + [last];
      assert multiset(options) == multiset(init) + multiset{last};
      if last.value != Sentinel {
        OptionsOfAppend(prev, [Stamp(page, last)]);
        assert OptionsOf([Stamp(page, last)]) == [last];
      } else {
        assert FilterVillages(page, options) == prev;
      }
    }
  }

  /** A village dropdown holding only placeholder options yields no records. */
  lemma {:induction false} OnlyPlaceholderYieldsNothing(page: Page, options: seq<SelectOption>)
    requires forall i :: 0 <= i < |options| ==> options[i].value == Sentinel
    ensures FilterVillages(page, options) == []
  {
    if options != [] {
      OnlyPlaceholderYieldsNothing(page, options[..|options| - 1]);
    }
  }

  /** N options with real values yield exactly N records, one per option, in document order. */
  lemma {:induction false} AllRealOptionsKept(page: Page, options: seq<SelectOption>)
    requires forall i :: 0 <= i < |options| ==> options[i].value != Sentinel
    ensures |FilterVillages(page, options)| == |options|
    ensures OptionsOf(FilterVillages(page, options)) == options
  {
    if options != [] {
      var init, last := options[..|options| - 1], options[|options| - 1];
      AllRealOptionsKept(page, init);
      OptionsOfAppend(FilterVillages(page, init), [Stamp(page, last)]);
      assert options == init + [last];
    }
  }

  /** The options whose value is not the placeholder's, in document order. */
  function RealOptions(options: seq<SelectOption>): seq<SelectOption>
    decreases |options|
  {
    if options == [] then []
    else
      var o := options[|options| - 1];
      RealOptions(options[..|options| - 1]) + (if o.value != Sentinel then [o] else [])
  }

  /** On any page, placeholder included, one record comes out per real option, and the emitted
      villages are exactly the real options in document order. */
  lemma {:induction false} FilterVillagesRealOptions(page: Page, options: seq<SelectOption>)
    ensures |FilterVillages(page, options)| == |RealOptions(options)|
    ensures OptionsOf(FilterVillages(page, options)) == RealOptions(options)
  {
    if options != [] {
      var init, last := options[..|options| - 1], options[|options| - 1];
      var prev := FilterVillages(page, init);
      FilterVillagesRealOptions(page, init);
      if last.value != Sentinel {
        OptionsOfAppend(prev, [Stamp(page, last)]);
        assert OptionsOf([Stamp(page, last)]) == [last];
      } else {
        assert FilterVillages(page, options) == prev;
      }
    }
  }
}
