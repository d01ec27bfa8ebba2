/** The product filter panel: the fifteen state cells it owns, the handlers that overwrite
    them, the clear-all reset, the applied-filter count shown in its header, and the star row. */
module ProductFilterPanel {
  import opened SelectFilter

  // The closed choices offered by the panel's radio groups, product list and star row.
  const ConditionOptions: seq<string> := ["New", "Used"]
  const CostOptions: seq<string> := ["All", "Free", "Paid", "Discounted"]
  const DateOptions: seq<string> := ["Today", "Free", "Paid"]
  const Products: seq<string> := ["Books", "Templates", "Software", "Courses"]
  const Stars: seq<int> := [1, 2, 3, 4, 5]
  const PriceMin: int := 0
  const PriceMax: int := 100

  // The hard-coded option lists of the four tag fields.
  const SectorOptions: seq<Tag> := [Tag("1", "Public law"), Tag("2", "Drug law"), Tag("3", "Criminal law")]
  const LawOptions: seq<Tag> := [Tag("1", "Public law"), Tag("2", "Drug law"), Tag("3", "Contract law")]
  const LanguageOptions: seq<Tag> := [Tag("1", "English"), Tag("2", "Spanish"), Tag("3", "French")]
  const BookTypeOptions: seq<Tag> := [Tag("1", "E-book"), Tag("2", "Audio"), Tag("3", "Hard copy")]

  /** The five tag fields, each rendered by one select-by-tag control. */
  datatype TagField = Sectors | GoverningLaw | Languages | BookTypes | Version

  /** The options a field's dropdown draws from; `version` is given none. */
  function Options(f: TagField): seq<Tag>
  {
    match f
    case Sectors => SectorOptions
    case GoverningLaw => LawOptions
    case Languages => LanguageOptions
    case BookTypes => BookTypeOptions
    case Version => []
  }

  /** The values of the panel's state cells at one render. */
  datatype FilterValues = FilterValues(
    author: string,
    seller: string,
    publishDate: string,
    date: string,
    selectedSectors: seq<Tag>,
    selectedGoverningLaw: seq<Tag>,
    selectedLanguages: seq<Tag>,
    selectedBookTypes: seq<Tag>,
    version: seq<Tag>,
    condition: string,
    cost: string,
    dateOption: string,
    price: int,
    starRating: int,
    selectedProduct: string)
  {
    /** The selected tags of field `f`. */
    function Tags(f: TagField): seq<Tag>
    {
      match f
      case Sectors => selectedSectors
      case GoverningLaw => selectedGoverningLaw
      case Languages => selectedLanguages
      case BookTypes => selectedBookTypes
      case Version => version
    }

    /** These values with field `f`'s tag list replaced by `tags`. */
    function WithTags(f: TagField, tags: seq<Tag>): FilterValues
    {
      match f
      case Sectors => this.(selectedSectors := tags)
      case GoverningLaw => this.(selectedGoverningLaw := tags)
      case Languages => this.(selectedLanguages := tags)
      case BookTypes => this.(selectedBookTypes := tags)
      case Version => this.(version := tags)
    }
  }

  /** The values every cell takes when the panel mounts; they keep the handlers' invariant
      (that they count as no filter applied is ClearedFacts). */
  function Initial(): (r: FilterValues)
    ensures ValidValues(r) && DistinctValues(r)
  {
    FilterValues("", "", "", "", [], [], [], [], [], "New", "All", "Today", 0, 0, "Books")
  }

  /** What the panel's handlers keep true: every closed choice within its set, price and
      rating within their ranges, `version` empty, every selected tag one of its field's options. */
  predicate ValidValues(v: FilterValues)
  {
    v.condition in ConditionOptions && v.cost in CostOptions && v.dateOption in DateOptions &&
    v.selectedProduct in Products &&
    PriceMin <= v.price <= PriceMax && 0 <= v.starRating <= |Stars| &&
    v.version == [] &&
    (forall t :: t in v.selectedSectors ==> t in SectorOptions) &&
    (forall t :: t in v.selectedGoverningLaw ==> t in LawOptions) &&
    (forall t :: t in v.selectedLanguages ==> t in LanguageOptions) &&
    (forall t :: t in v.selectedBookTypes ==> t in BookTypeOptions)
  }

  /** No tag field holds two tags with the same id. */
  predicate DistinctValues(v: FilterValues)
  {
    DistinctIds(v.selectedSectors) && DistinctIds(v.selectedGoverningLaw) &&
    DistinctIds(v.selectedLanguages) && DistinctIds(v.selectedBookTypes) && DistinctIds(v.version)
  }

  /** The clear-all action: its fourteen setter calls taken as one update. */
  function Cleared(v: FilterValues): (r: FilterValues)
    ensures r == Initial().(selectedProduct := v.selectedProduct)
  {
    v.(author := "", seller := "", publishDate := "", date := "",
       selectedSectors := [], selectedGoverningLaw := [], selectedLanguages := [],
       selectedBookTypes := [], version := [],
       condition := "New", cost := "All", dateOption := "Today", price := 0, starRating := 0)
  }

  // ----- The applied-filter count -----

  /** 1 for a condition that holds, 0 otherwise. */
  function Flag(b: bool): nat
  {
    if b then 1 else 0
  }

  /** JavaScript truthiness of a string: it is not empty. */
  predicate Truthy(x: string)
  {
    |x| > 0
  }

  /** How many of the strings are truthy, that is non-empty
      (src/components/products/ProductFilters.tsx:175-176). */
  function CountTruthy(xs: seq<string>): (r: nat)
    ensures r <= |xs|
  {
    if xs == [] then 0 else Flag(Truthy(xs[0])) + CountTruthy(xs[1..])
  }

  /** The labels of the tags, in order. */
  function Labels(tags: seq<Tag>): (r: seq<string>)
    ensures |r| == |tags|
  {
    if tags == [] then [] else [tags[0].text] + Labels(tags[1..])
  }

  /** The decimal digit character of `d`. */
  function DigitChar(d: nat): char
    requires d < 10
  {
    "0123456789"[d]
  }

  /** The value of a decimal digit character. */
  function DigitValue(c: char): nat
  {
    if '0' <= c <= '9' then (c as int - '0' as int) as nat else 0
  }

  /** The decimal rendering of a non-negative integer: its digits, most significant first. */
  function DecimalString(n: nat): (r: string)
    ensures |r| >= 1
    ensures forall i :: 0 <= i < |r| ==> '0' <= r[i] <= '9'
  {
    if n < 10 then [DigitChar(n)] else DecimalString(n / 10) + [DigitChar(n % 10)]
  }

  /** The number a string of decimal digits denotes. */
  function DecimalValue(s: string): nat
  {
    if s == [] then 0 else DecimalValue(s[..|s| - 1]) * 10 + DigitValue(s[|s| - 1])
  }

  /** Reading the digits back gives the number. */
  lemma {:induction false} DecimalRoundTrip(n: nat)
    ensures DecimalValue(DecimalString(n)) == n
  {
    var r := DecimalString(n);
    if n < 10 {
      assert r[..|r| - 1] == [];
    } else {
      DecimalRoundTrip(n / 10);
      assert r[..|r| - 1] == DecimalString(n / 10);
    }
  }

  /** The strings the header's count is taken over: the four text and date fields, each
      non-default choice, a non-zero price and rating as text, then every selected tag's label. */
  function AppliedEntries(v: FilterValues): seq<string>
  {
    ScalarEntries(v) + Labels(v.selectedSectors) + Labels(v.selectedGoverningLaw) + Labels(v.selectedLanguages) +
    Labels(v.selectedBookTypes) + Labels(v.version)
  }

  /** The first nine entries of the count's list, one per scalar cell. */
  function ScalarEntries(v: FilterValues): (r: seq<string>)
    ensures |r| == 9
  {
    [v.author, v.seller, v.publishDate, v.date,
     if v.condition != "New" then v.condition else "",
     if v.cost != "All" then v.cost else "",
     if v.dateOption != "Today" then v.dateOption else "",
     if v.price > 0 then DecimalString(v.price) else "",
     if v.starRating > 0 then DecimalString(v.starRating) else ""]
  }

  /** The number shown as "N applied": at most one per scalar cell and one per selected tag
      (its exact value is AppliedCountFormula, and AppliedCountOfValid in reachable states). */
  function AppliedCount(v: FilterValues): (r: nat)
    ensures r <= 9 + TagTotal(v)
  {
    CountTruthy(AppliedEntries(v))
  }

  /** Truthy-counting adds up over concatenation. */
  lemma {:induction false} CountTruthyConcat(a: seq<string>, b: seq<string>)
    ensures CountTruthy(a + b) == CountTruthy(a) + CountTruthy(b)
  {
    if a == [] {
      assert a + b == b;
    } else {
      assert (a + b)[0] == a[0];
      assert (a + b)[1..] == a[1..] + b;
      CountTruthyConcat(a[1..], b);
    }
  }

  /** The labels counted for a tag list are those that are not empty; when no label is empty,
      every tag counts once. */
  lemma {:induction false} LabelledCount(tags: seq<Tag>)
    ensures CountTruthy(Labels(tags)) <= |tags|
    ensures (forall t :: t in tags ==> t.text != "") ==> CountTruthy(Labels(tags)) == |tags|
  {
    if tags != [] {
      LabelledCount(tags[1..]);
      assert Labels(tags)[0] == tags[0].text;
      assert Labels(tags)[1..] == Labels(tags[1..]);
      assert forall t :: t in tags[1..] ==> t in tags;
    }
  }

  /** The count field by field: one per non-empty text or date field, one per choice off its
      default, one for a positive price and for a positive rating, and one per selected tag
      whose label is not empty. */
  lemma AppliedCountFormula(v: FilterValues)
    ensures AppliedCount(v) ==
      Flag(v.author != "") + Flag(v.seller != "") + Flag(v.publishDate != "") + Flag(v.date != "") +
      Flag(v.condition != "New" && v.condition != "") + Flag(v.cost != "All" && v.cost != "") +
      Flag(v.dateOption != "Today" && v.dateOption != "") + Flag(v.price > 0) + Flag(v.starRating > 0) +
      CountTruthy(Labels(v.selectedSectors)) + CountTruthy(Labels(v.selectedGoverningLaw)) +
      CountTruthy(Labels(v.selectedLanguages)) + CountTruthy(Labels(v.selectedBookTypes)) +
      CountTruthy(Labels(v.version))
  {
    var scalars := ScalarEntries(v);
    var s1, s2, s3, s4, s5 := Labels(v.selectedSectors), Labels(v.selectedGoverningLaw),
      Labels(v.selectedLanguages), Labels(v.selectedBookTypes), Labels(v.version);
    CountTruthyConcat(scalars + s1 + s2 + s3 + s4, s5);
    CountTruthyConcat(scalars + s1 + s2 + s3, s4);
    CountTruthyConcat(scalars + s1 + s2, s3);
    CountTruthyConcat(scalars + s1, s2);
    CountTruthyConcat(scalars, s1);
    ScalarCount(v);
  }

  /** One step of the count from position `k`. */
  lemma CountTruthyFrom(xs: seq<string>, k: nat)
    requires k < |xs|
    ensures CountTruthy(xs[k..]) == Flag(Truthy(xs[k])) + CountTruthy(xs[k + 1..])
  {
    assert xs[k..][1..] == xs[k + 1..];
  }

  /** The nine scalar entries count one each when non-empty. */
  lemma ScalarCount(v: FilterValues)
    ensures CountTruthy(ScalarEntries(v)) ==
      Flag(v.author != "") + Flag(v.seller != "") + Flag(v.publishDate != "") + Flag(v.date != "") +
      Flag(v.condition != "New" && v.condition != "") + Flag(v.cost != "All" && v.cost != "") +
      Flag(v.dateOption != "Today" && v.dateOption != "") + Flag(v.price > 0) + Flag(v.starRating > 0)
  {
    var s := ScalarEntries(v);
    CountNine(s);
    assert Truthy(s[7]) == (v.price > 0);
    assert Truthy(s[8]) == (v.starRating > 0);
  }

  /** The count of a nine-entry list, entry by entry. */
  lemma CountNine(s: seq<string>)
    requires |s| == 9
    ensures CountTruthy(s) ==
      Flag(Truthy(s[0])) + Flag(Truthy(s[1])) + Flag(Truthy(s[2])) + Flag(Truthy(s[3])) + Flag(Truthy(s[4])) +
      Flag(Truthy(s[5])) + Flag(Truthy(s[6])) + Flag(Truthy(s[7])) + Flag(Truthy(s[8]))
  {
    CountTruthyFrom(s, 0); CountTruthyFrom(s, 1); CountTruthyFrom(s, 2);
    CountTruthyFrom(s, 3); CountTruthyFrom(s, 4); CountTruthyFrom(s, 5);
    CountTruthyFrom(s, 6); CountTruthyFrom(s, 7); CountTruthyFrom(s, 8);
    assert s[0..] == s;
    assert s[9..] == [];
  }

  /** Every option of every field has a non-empty label. */
  lemma OptionsLabelled(f: TagField)
    ensures forall t :: t in Options(f) ==> t.text != ""
  {
  }

  /** In every state the handlers can reach, the count is the number of non-empty text and date
      fields, plus one for each choice off its default and for a positive price and rating,
      plus the number of selected tags. */
  lemma AppliedCountOfValid(v: FilterValues)
    requires ValidValues(v)
    ensures AppliedCount(v) ==
      Flag(v.author != "") + Flag(v.seller != "") + Flag(v.publishDate != "") + Flag(v.date != "") +
      Flag(v.condition != "New") + Flag(v.cost != "All") + Flag(v.dateOption != "Today") +
      Flag(v.price > 0) + Flag(v.starRating > 0) +
      |v.selectedSectors| + |v.selectedGoverningLaw| + |v.selectedLanguages| +
      |v.selectedBookTypes| + |v.version|
  {
    AppliedCountFormula(v);
    OptionsLabelled(Sectors);
    OptionsLabelled(GoverningLaw);
    OptionsLabelled(Languages);
    OptionsLabelled(BookTypes);
    LabelledCount(v.selectedSectors);
    LabelledCount(v.selectedGoverningLaw);
    LabelledCount(v.selectedLanguages);
    LabelledCount(v.selectedBookTypes);
    LabelledCount(v.version);
  }

  /** Clear-all keeps the product, restores every other cell to its mount value, so that nothing
      is counted as applied; clearing twice is clearing once, and it keeps the handlers' invariant. */
  lemma ClearedFacts(v: FilterValues)
    ensures Cleared(v).selectedProduct == v.selectedProduct
    ensures Cleared(Cleared(v)) == Cleared(v)
    ensures AppliedCount(Cleared(v)) == 0
    ensures v.selectedProduct in Products ==> ValidValues(Cleared(v)) && DistinctValues(Cleared(v))
    ensures v.selectedProduct == Initial().selectedProduct ==> Cleared(v) == Initial()
  {
    AppliedCountFormula(Cleared(v));
  }

  // ----- The tag handlers on the values -----

  /** A pick of `id` in field `f`'s dropdown: the first option carrying `id` is appended to the
      field's tags; an id no option carries (such as the placeholder `""`) changes nothing. */
  function TagSelected(v: FilterValues, f: TagField, id: string): (r: FilterValues)
    ensures r == v.WithTags(f, r.Tags(f))
    ensures !Mentions(Options(f), id) ==> r == v
    ensures Mentions(Options(f), id) ==>
      |r.Tags(f)| == |v.Tags(f)| + 1 && r.Tags(f)[..|v.Tags(f)|] == v.Tags(f) &&
      r.Tags(f)[|v.Tags(f)|].id == id && r.Tags(f)[|v.Tags(f)|] in Options(f)
  {
    v.WithTags(f, SelectById(Options(f), v.Tags(f), id))
  }

  /** The remove control of a tag carrying `id` in field `f`: every such tag leaves the list,
      the others stay in order; `version`'s remove handler does nothing. */
  function TagRemoved(v: FilterValues, f: TagField, id: string): (r: FilterValues)
    ensures r == v.WithTags(f, r.Tags(f))
    ensures f == Version ==> r == v
    ensures f != Version ==>
      (forall t :: t in r.Tags(f) <==> t in v.Tags(f) && t.id != id) && !Mentions(r.Tags(f), id)
  {
    if f == Version then v
    else
      RemovedMembers(v.Tags(f), id);
      v.WithTags(f, Removed(v.Tags(f), id))
  }

  /** Replacing a field's tags by tags drawn from its options keeps the handlers' invariant. */
  lemma WithTagsValid(v: FilterValues, f: TagField, tags: seq<Tag>)
    requires ValidValues(v)
    requires forall t :: t in tags ==> t in Options(f)
    requires f == Version ==> tags == []
    ensures ValidValues(v.WithTags(f, tags))
  {
  }

  /** Replacing a field's tags by tags with distinct ids keeps every field's ids distinct. */
  lemma WithTagsDistinct(v: FilterValues, f: TagField, tags: seq<Tag>)
    requires DistinctValues(v) && DistinctIds(tags)
    ensures DistinctValues(v.WithTags(f, tags))
  {
  }

  /** Between two reachable states that differ in one field's tags, the applied count moves by
      the change in that list's length. */
  lemma WithTagsCount(v: FilterValues, f: TagField, tags: seq<Tag>)
    requires ValidValues(v) && ValidValues(v.WithTags(f, tags))
    ensures AppliedCount(v.WithTags(f, tags)) + |v.Tags(f)| == AppliedCount(v) + |tags|
  {
    AppliedCountOfValid(v);
    AppliedCountOfValid(v.WithTags(f, tags));
    WithTagsTotal(v, f, tags);
  }

  /** The number of selected tags over all fields. */
  function TagTotal(v: FilterValues): nat
  {
    |v.selectedSectors| + |v.selectedGoverningLaw| + |v.selectedLanguages| +
    |v.selectedBookTypes| + |v.version|
  }

  /** Replacing one field's tags changes the total by the change in that list's length and
      leaves every scalar cell as it was. */
  lemma WithTagsTotal(v: FilterValues, f: TagField, tags: seq<Tag>)
    ensures TagTotal(v.WithTags(f, tags)) + |v.Tags(f)| == TagTotal(v) + |tags|
    ensures v.WithTags(f, tags).(selectedSectors := v.selectedSectors, selectedGoverningLaw := v.selectedGoverningLaw,
      selectedLanguages := v.selectedLanguages, selectedBookTypes := v.selectedBookTypes, version := v.version) == v
  {
  }
  /** A pick keeps the handlers' invariant and changes only the picked field; an id no option
      carries changes nothing. */
  lemma SelectStep(v: FilterValues, f: TagField, id: string)
    requires ValidValues(v)
    ensures ValidValues(TagSelected(v, f, id))
    ensures !Mentions(Options(f), id) ==> TagSelected(v, f, id) == v
  {
    WithTagsValid(v, f, SelectById(Options(f), v.Tags(f), id));
  }

  /** Picking an offered entry keeps the ids distinct, withdraws the id from the dropdown and
      raises the applied count by exactly one. */
  lemma SelectOfferedStep(v: FilterValues, f: TagField, id: string)
    requires ValidValues(v) && DistinctValues(v)
    requires Mentions(Available(Options(f), v.Tags(f)), id)
    ensures DistinctValues(TagSelected(v, f, id))
    ensures !Mentions(Available(Options(f), TagSelected(v, f, id).Tags(f)), id)
    ensures AppliedCount(TagSelected(v, f, id)) == AppliedCount(v) + 1
  {
    var tags := SelectById(Options(f), v.Tags(f), id);
    SelectOfferedKeepsDistinct(Options(f), v.Tags(f), id);
    WithTagsDistinct(v, f, tags);
    WithTagsValid(v, f, tags);
    WithTagsCount(v, f, tags);
  }

  /** A removal keeps the handlers' invariant and distinct ids, and every option carrying `id`
      is offered again. */
  lemma RemoveStep(v: FilterValues, f: TagField, id: string)
    requires ValidValues(v)
    ensures ValidValues(TagRemoved(v, f, id))
    ensures DistinctValues(v) ==> DistinctValues(TagRemoved(v, f, id))
    ensures forall o :: o in Options(f) && o.id == id ==> o in Available(Options(f), TagRemoved(v, f, id).Tags(f))
  {
    if f != Version {
      var tags := Removed(v.Tags(f), id);
        RemovedMembers(v.Tags(f), id);
      RemoveRestoresOption(Options(f), v.Tags(f), id);
      WithTagsValid(v, f, tags);
      if DistinctValues(v) {
        RemovedKeepsDistinct(v.Tags(f), id);
        WithTagsDistinct(v, f, tags);
      }
    }
  }

  /** With distinct ids, removing a present id lowers the applied count by exactly one. */
  lemma RemovePresentStep(v: FilterValues, f: TagField, id: string)
    requires ValidValues(v) && DistinctValues(v) && f != Version && Mentions(v.Tags(f), id)
    ensures AppliedCount(TagRemoved(v, f, id)) == AppliedCount(v) - 1
  {
    var tags := Removed(v.Tags(f), id);
    RemoveDistinctShrinks(v.Tags(f), id);
    RemovedMembers(v.Tags(f), id);
    WithTagsValid(v, f, tags);
    WithTagsCount(v, f, tags);
  }

  // ----- The star row -----

  const FilledStar: char := '★'
  const EmptyStar: char := '☆'

  /** `n` copies of `c`. */
  function Repeat(c: char, n: nat): (r: seq<char>)
    ensures |r| == n
  {
    if n == 0 then [] else [c] + Repeat(c, n - 1)
  }

  /** The glyphs of the five star buttons: star `k` is filled when `k` is at most the rating
      (src/components/products/ProductFilters.tsx:386). For a rating in range that is `rating`
      filled stars followed by the rest empty. */
  function StarRow(rating: int): (r: seq<char>)
    ensures |r| == |Stars|
    ensures 0 <= rating <= |Stars| ==> r == Repeat(FilledStar, rating) + Repeat(EmptyStar, |Stars| - rating)
  {
    var r := seq(|Stars|, i requires 0 <= i < |Stars| => if Stars[i] <= rating then FilledStar else EmptyStar);
    if 0 <= rating <= |Stars| then
      var expected := Repeat(FilledStar, rating) + Repeat(EmptyStar, |Stars| - rating);
      assert forall i :: 0 <= i < |Stars| ==> r[i] == expected[i] by {
        forall i | 0 <= i < |Stars| ensures r[i] == expected[i] {
          RepeatAt(FilledStar, rating, i);
          RepeatAt(EmptyStar, |Stars| - rating, i - rating);
        }
      }
      r
    else r
  }

  /** Every element of `Repeat(c, n)` is `c`. */
  lemma {:induction false} RepeatAt(c: char, n: nat, i: int)
    ensures 0 <= i < n ==> Repeat(c, n)[i] == c
  {
    if n > 0 && i > 0 {
      RepeatAt(c, n - 1, i - 1);
    }
  }

  /** `Repeat(c, n)` holds `n` copies of `c` and nothing else. */
  lemma {:induction false} RepeatMultiset(c: char, n: nat)
    ensures multiset(Repeat(c, n)) == multiset{} [c := n]
  {
    if n > 0 {
      RepeatMultiset(c, n - 1);
      assert multiset(Repeat(c, n)) == multiset([c]) + multiset(Repeat(c, n - 1));
    }
  }

  /** Exactly `starRating` of the five stars render filled and the others render empty. */
  lemma FilledStars(rating: int)
    requires 0 <= rating <= |Stars|
    ensures multiset(StarRow(rating))[FilledStar] == rating
    ensures multiset(StarRow(rating))[EmptyStar] == |Stars| - rating
  {
    RepeatMultiset(FilledStar, rating);
    RepeatMultiset(EmptyStar, |Stars| - rating);
  }

  // ----- The panel's state cells and handlers -----

  /** The mounted panel: one field per state cell, overwritten by its handlers. */
  class ProductFilters {
    var author: string
    var seller: string
    var publishDate: string
    var date: string
    var selectedSectors: seq<Tag>
    var selectedGoverningLaw: seq<Tag>
    var selectedLanguages: seq<Tag>
    var selectedBookTypes: seq<Tag>
    var version: seq<Tag>
    var condition: string
    var cost: string
    var dateOption: string
    var price: int
    var starRating: int
    var selectedProduct: string

    /** The cells' current values. */
    function Values(): FilterValues
      reads this
    {
      FilterValues(author, seller, publishDate, date,
        selectedSectors, selectedGoverningLaw, selectedLanguages, selectedBookTypes, version,
        condition, cost, dateOption, price, starRating, selectedProduct)
    }

    predicate Valid()
      reads this
    {
      ValidValues(Values())
    }

    predicate DistinctSelections()
      reads this
    {
      DistinctValues(Values())
    }

    /** The entries field `f`'s dropdown offers right now. */
    function Offered(f: TagField): seq<Tag>
      reads this
    {
      Available(Options(f), Values().Tags(f))
    }

    /** Mounting: every cell takes its initial value. */
    constructor ()
      ensures Values() == Initial()
      ensures Valid() && DistinctSelections()
    {
      author, seller, publishDate, date := "", "", "", "";
      selectedSectors, selectedGoverningLaw, selectedLanguages, selectedBookTypes, version := [], [], [], [], [];
      condition, cost, dateOption := "New", "All", "Today";
      price, starRating := 0, 0;
      selectedProduct := "Books";
    }

    method SetAuthor(value: string)
      requires Valid()
      modifies this`author
      ensures Valid()
      ensures Values() == old(Values()).(author := value)
    {
      author := value;
    }

    method SetSeller(value: string)
      requires Valid()
      modifies this`seller
      ensures Valid()
      ensures Values() == old(Values()).(seller := value)
    {
      seller := value;
    }

    /** The publish-date input; the date text is kept as given. */
    method SetPublishDate(value: string)
      requires Valid()
      modifies this`publishDate
      ensures Valid()
      ensures Values() == old(Values()).(publishDate := value)
    {
      publishDate := value;
    }

    /** The date input; the date text is kept as given. */
    method SetDate(value: string)
      requires Valid()
      modifies this`date
      ensures Valid()
      ensures Values() == old(Values()).(date := value)
    {
      date := value;
    }

    /** A product button: the product replaces the selected one. */
    method SetSelectedProduct(product: string)
      requires Valid() && product in Products
      modifies this`selectedProduct
      ensures Valid()
      ensures Values() == old(Values()).(selectedProduct := product)
    {
      selectedProduct := product;
    }

    /** A condition radio button. */
    method SetCondition(opt: string)
      requires Valid() && opt in ConditionOptions
      modifies this`condition
      ensures Valid()
      ensures Values() == old(Values()).(condition := opt)
    {
      condition := opt;
    }

    /** A cost radio button. */
    method SetCost(opt: string)
      requires Valid() && opt in CostOptions
      modifies this`cost
      ensures Valid()
      ensures Values() == old(Values()).(cost := opt)
    {
      cost := opt;
    }

    /** A date-option radio button. */
    method SetDateOption(opt: string)
      requires Valid() && opt in DateOptions
      modifies this`dateOption
      ensures Valid()
      ensures Values() == old(Values()).(dateOption := opt)
    {
      dateOption := opt;
    }

    /** The price slider, whose range input yields integers from 0 to 100. */
    method SetPrice(value: int)
      requires Valid() && PriceMin <= value <= PriceMax
      modifies this`price
      ensures Valid()
      ensures Values() == old(Values()).(price := value)
    {
      price := value;
    }

    /** Star button `star`: the rating becomes `star`, whatever it was, so that the first `star`
        stars render filled. */
    method SetStarRating(star: int)
      requires Valid() && star in Stars
      modifies this`starRating
      ensures Valid()
      ensures Values() == old(Values()).(starRating := star)
      ensures multiset(StarRow(starRating))[FilledStar] == star
    {
      starRating := star;
      FilledStars(star);
    }

    /** The setter of field `f`'s tag list. */
    method SetTags(f: TagField, tags: seq<Tag>)
      requires ValidValues(Values().WithTags(f, tags))
      modifies this`selectedSectors, this`selectedGoverningLaw, this`selectedLanguages,
        this`selectedBookTypes, this`version
      ensures Valid()
      ensures Values() == old(Values()).WithTags(f, tags)
    {
      match f
      case Sectors => selectedSectors := tags;
      case GoverningLaw => selectedGoverningLaw := tags;
      case Languages => selectedLanguages := tags;
      case BookTypes => selectedBookTypes := tags;
      case Version => version := tags;
    }

    /** A pick in field `f`'s dropdown (see TagSelected); the `version` field has no options,
        so its no-op add handler is never reached. */
    method SelectTag(f: TagField, id: string)
      requires Valid()
      modifies this`selectedSectors, this`selectedGoverningLaw, this`selectedLanguages,
        this`selectedBookTypes, this`version
      ensures Values() == TagSelected(old(Values()), f, id)
      ensures Valid()
      ensures !Mentions(Options(f), id) ==> Values() == old(Values())
      ensures old(DistinctSelections()) && Mentions(old(Offered(f)), id) ==>
        DistinctSelections() && !Mentions(Offered(f), id) &&
        AppliedCount(Values()) == old(AppliedCount(Values())) + 1
    {
      var before := Values();
      SelectStep(before, f, id);
      if DistinctValues(before) && Mentions(Available(Options(f), before.Tags(f)), id) {
        SelectOfferedStep(before, f, id);
      }
      if f != Version {
        var found := Find(Options(f), id);
        if found.Some? {
          SetTags(f, before.Tags(f) + [found.value]);
        }
      }
    }

    /** A tag's remove control in field `f` (see TagRemoved). */
    method RemoveTag(f: TagField, id: string)
      requires Valid()
      modifies this`selectedSectors, this`selectedGoverningLaw, this`selectedLanguages,
        this`selectedBookTypes, this`version
      ensures Values() == TagRemoved(old(Values()), f, id)
      ensures Valid()
      ensures old(DistinctSelections()) ==> DistinctSelections()
      ensures forall o :: o in Options(f) && o.id == id ==> o in Offered(f)
      ensures old(DistinctSelections()) && Mentions(old(Values()).Tags(f), id) ==>
        AppliedCount(Values()) == old(AppliedCount(Values())) - 1
    {
      var before := Values();
      RemoveStep(before, f, id);
      if DistinctValues(before) && f != Version && Mentions(before.Tags(f), id) {
        RemovePresentStep(before, f, id);
      }
      if f != Version {
        SetTags(f, Removed(before.Tags(f), id));
      }
    }

    /** The clear-all control: every cell but the selected product returns to its mount value. */
    method ClearAll()
      requires Valid()
      modifies this`author, this`seller, this`publishDate, this`date,
        this`selectedSectors, this`selectedGoverningLaw, this`selectedLanguages,
        this`selectedBookTypes, this`version,
        this`condition, this`cost, this`dateOption, this`price, this`starRating
      ensures Values() == Cleared(old(Values()))
      ensures Valid() && DistinctSelections()
      ensures AppliedCount(Values()) == 0
    {
      author := "";
      seller := "";
      publishDate := "";
      date := "";
      selectedSectors := [];
      selectedGoverningLaw := [];
      selectedLanguages := [];
      selectedBookTypes := [];
      version := [];
      condition := "New";
      cost := "All";
      dateOption := "Today";
      price := 0;
      starRating := 0;
      assert Values() == Cleared(old(Values()));
      ClearedFacts(old(Values()));
    }
  }
}
