# Product filter panel: a Dafny model

This project models the filter panel of a product-catalog page, the `ProductFilters` React
component and the `SelectFilter` control it renders. The model has two modules.

- `SelectFilter` (select_filter.dfy) covers the multi-select-by-tag control. It holds the `Tag` value, the
  dropdown's exclusion of already-selected ids (`Available`), and the lookup of a picked id
  in the field's full option list (`Find`, `SelectById`). It also holds the remove updater
  that drops every tag carrying an id (`Removed`). All of these are pure functions with
  lemmas: order is kept, entries keep their multiplicity, the dropdown and the selected list
  never share an id, removal is idempotent, and append-then-remove is a round trip.
- `ProductFilterPanel` (product_filters.dfy) covers the panel's fifteen state cells and
  their handlers. The class `ProductFilters` has one field per cell, and each handler is a
  method whose `modifies` clause names only the cells it may write. `Values()` gives the cells
  as a `FilterValues` record, so the new state can be stated against functions of the old
  one (`Cleared`, `TagSelected`, `TagRemoved`). The tag handlers may write any of the five
  tag cells; their `ensures Values() == …` clause pins all but the acted-on field to their
  old values. `ValidValues` is the invariant every handler keeps:
  - each radio choice and the product stay in their fixed sets;
  - price stays in [0, 100] and the rating in [0, 5];
  - `version` stays empty;
  - every selected tag is one of its field's options.

  The header's "N applied" number is `AppliedCount`. It counts the truthy strings in the
  list the component builds. `AppliedCountOfValid` proves the field-by-field formula for
  it. The star row is `StarRow`, and `FilledStars` proves that exactly `starRating` stars are
  filled.

Three points of the code's behaviour that the model keeps:

- The applied count counts a selected tag only when its label is non-empty;
  `AppliedCountOfValid` shows that in every reachable state this is the number of selected
  tags, because every option label is non-empty.
- Clear-all does not reset `selectedProduct` (src/components/products/ProductFilters.tsx:142-157).
- A picked id is looked up in the field's full option list, not only in the offered
  entries, and whatever is found is appended. `SelectById` accepts any id; distinct ids are
  promised only when the id was offered, as it is for every pick the dropdown can produce.

A tag's display label is the field `text` in the model, because `label` is a reserved word
in Dafny.

## Model

| member | source | states |
|---|---|---|
| SelectFilter.Find | src/components/products/ProductFilters.tsx:60 | returns None exactly when no tag carries the id; otherwise it returns a tag of the list with that id, and no earlier tag has that id |
| SelectFilter.Available | src/components/products/ProductFilters.tsx:49-51 | the dropdown never offers more entries than the option list holds |
| SelectFilter.AvailableMembers | src/components/products/ProductFilters.tsx:49-51 | an entry is offered iff it is an option whose id no selected tag carries, so no offered entry shares an id with a selected tag |
| SelectFilter.AvailableConcat | src/components/products/ProductFilters.tsx:49-51 | the dropdown keeps the options' order: filtering distributes over concatenation |
| SelectFilter.AvailableMultiplicity | src/components/products/ProductFilters.tsx:49-51 | each option is offered exactly as many times as it occurs in the option list, or not at all when its id is selected |
| SelectFilter.Removed | src/components/products/ProductFilters.tsx:247 | removal never lengthens the list |
| SelectFilter.RemovedMembers | src/components/products/ProductFilters.tsx:247 | a tag survives removal iff it was in the list and does not carry the id; afterwards no tag carries the id |
| SelectFilter.RemovedMultiplicity | src/components/products/ProductFilters.tsx:247 | each surviving tag occurs as often as before; tags carrying the id occur zero times |
| SelectFilter.RemovedConcat | src/components/products/ProductFilters.tsx:247 | removal keeps the survivors in their order: it distributes over concatenation |
| SelectFilter.RemoveAbsent | src/components/products/ProductFilters.tsx:247 | removing an id that no tag carries leaves the list unchanged |
| SelectFilter.RemoveTwice | src/components/products/ProductFilters.tsx:247 | removing an id twice gives the same list as removing it once |
| SelectFilter.RemovedKeepsDistinct | src/components/products/ProductFilters.tsx:247 | removal keeps pairwise-distinct ids distinct |
| SelectFilter.RemoveDistinctShrinks | src/components/products/ProductFilters.tsx:247 | with distinct ids, removing a present id shrinks the list by exactly one |
| SelectFilter.AddThenRemove | src/components/products/ProductFilters.tsx:245-247 | appending a tag whose id is not yet selected, then removing that id, gives back the original list |
| SelectFilter.RemoveRestoresOption | src/components/products/ProductFilters.tsx:49-51 | after removing an id, every option that carries it is offered again |
| SelectFilter.SelectById | src/components/products/ProductFilters.tsx:59-62 | an id that no option carries (such as the placeholder "") leaves the list unchanged; otherwise the list grows by one, keeps its earlier tags, and ends with the first option carrying the id; every tag is an earlier tag or an option |
| SelectFilter.SelectOfferedKeepsDistinct | src/components/products/ProductFilters.tsx:59-70 | picking an offered id grows the list by one, keeps the ids distinct, and removes that id from the dropdown |
| ProductFilterPanel.Initial | src/components/products/ProductFilters.tsx:102-140 | the mount values (empty texts and tag lists, New, All, Today, price 0, rating 0, Books) keep the handlers' invariant and have distinct ids |
| ProductFilterPanel.Cleared | src/components/products/ProductFilters.tsx:142-157 | clear-all gives the mount values with the old selected product kept |
| ProductFilterPanel.ClearedFacts | src/components/products/ProductFilters.tsx:142-157 | clear-all keeps the product and is idempotent; it leaves an applied count of 0; it keeps the invariant and distinct ids; from product "Books" it gives exactly the mount state |
| ProductFilterPanel.CountTruthy | src/components/products/ProductFilters.tsx:175-176 | the number of truthy (non-empty) strings is at most the list's length |
| ProductFilterPanel.CountTruthyConcat | src/components/products/ProductFilters.tsx:159-176 | counting truthy strings adds up over concatenation |
| ProductFilterPanel.Labels | src/components/products/ProductFilters.tsx:169-173 | mapping tags to their labels keeps the length |
| ProductFilterPanel.LabelledCount | src/components/products/ProductFilters.tsx:169-176 | a tag list adds at most its length to the count, and exactly its length when no label is empty |
| ProductFilterPanel.DecimalString | src/components/products/ProductFilters.tsx:167-168 | `toString()` of a number is a non-empty string of decimal digits, so a positive price or rating is truthy |
| ProductFilterPanel.DecimalRoundTrip | src/components/products/ProductFilters.tsx:167-168 | reading the digits back gives the number |
| ProductFilterPanel.AppliedCount | src/components/products/ProductFilters.tsx:159-176 | the count of truthy entries is at most one per scalar cell (nine) plus one per selected tag; its exact value is given by AppliedCountFormula |
| ProductFilterPanel.AppliedCountFormula | src/components/products/ProductFilters.tsx:159-176 | the count is one per non-empty text or date field, one per choice that differs from its default and is non-empty, one for a positive price and one for a positive rating, plus each tag list's count of non-empty labels |
| ProductFilterPanel.OptionsLabelled | src/components/products/ProductFilters.tsx:107-126 | every hard-coded option has a non-empty label |
| ProductFilterPanel.AppliedCountOfValid | src/components/products/ProductFilters.tsx:159-176 | in every reachable state the count is: non-empty text and date fields, plus condition≠New, cost≠All, dateOption≠Today, price>0 and rating>0, plus the total number of selected tags |
| ProductFilterPanel.TagSelected | src/components/products/ProductFilters.tsx:59-62 | a pick changes only the picked field's tags; an id no option carries changes nothing; otherwise the list keeps its tags and gains, at its end, an option of that field carrying the id |
| ProductFilterPanel.TagRemoved | src/components/products/ProductFilters.tsx:246-248 | a removal changes only that field's tags, keeping exactly the tags that do not carry the id, so none carries it afterwards; for `version` (:296) nothing changes |
| ProductFilterPanel.WithTagsValid | src/components/products/ProductFilters.tsx:245 | replacing a field's tags by tags drawn from its options keeps the invariant; for `version` the list must stay empty |
| ProductFilterPanel.WithTagsDistinct | src/components/products/ProductFilters.tsx:245-247 | replacing a field's tags by tags with distinct ids keeps every field's ids distinct |
| ProductFilterPanel.WithTagsCount | src/components/products/ProductFilters.tsx:159-176 | between two reachable states that differ only in one field's tags, the applied count changes by the change in that list's length |
| ProductFilterPanel.SelectStep | src/components/products/ProductFilters.tsx:59-62 | a pick keeps the invariant; an id no option carries changes nothing |
| ProductFilterPanel.SelectOfferedStep | src/components/products/ProductFilters.tsx:245 | picking an offered entry keeps ids distinct, withdraws the id from the dropdown and raises the applied count by exactly one |
| ProductFilterPanel.RemoveStep | src/components/products/ProductFilters.tsx:246-248 | a removal keeps the invariant and distinct ids, and every option carrying the id is offered again |
| ProductFilterPanel.RemovePresentStep | src/components/products/ProductFilters.tsx:246-248 | with distinct ids, removing a present id lowers the applied count by exactly one |
| ProductFilterPanel.StarRow | src/components/products/ProductFilters.tsx:380-388 | for a rating in 0..5 the five glyphs are `rating` filled stars followed by the rest empty |
| ProductFilterPanel.FilledStars | src/components/products/ProductFilters.tsx:386 | exactly `starRating` of the five stars render filled and `5 - starRating` render empty |
| ProductFilterPanel.ProductFilters.constructor | src/components/products/ProductFilters.tsx:102-140 | mounting sets every cell to its initial value and establishes the invariant and distinct ids |
| ProductFilterPanel.ProductFilters.SetAuthor | src/components/products/ProductFilters.tsx:214 | only `author` changes, to the typed text |
| ProductFilterPanel.ProductFilters.SetSeller | src/components/products/ProductFilters.tsx:225 | only `seller` changes, to the typed text |
| ProductFilterPanel.ProductFilters.SetPublishDate | src/components/products/ProductFilters.tsx:236 | only `publishDate` changes, to the input's text |
| ProductFilterPanel.ProductFilters.SetDate | src/components/products/ProductFilters.tsx:286 | only `date` changes, to the input's text |
| ProductFilterPanel.ProductFilters.SetSelectedProduct | src/components/products/ProductFilters.tsx:192-195 | only `selectedProduct` changes, to one of Books, Templates, Software, Courses |
| ProductFilterPanel.ProductFilters.SetCondition | src/components/products/ProductFilters.tsx:303-310 | only `condition` changes, and it stays in {New, Used} |
| ProductFilterPanel.ProductFilters.SetCost | src/components/products/ProductFilters.tsx:324-331 | only `cost` changes, and it stays in {All, Free, Paid, Discounted} |
| ProductFilterPanel.ProductFilters.SetDateOption | src/components/products/ProductFilters.tsx:345-352 | only `dateOption` changes, and it stays in {Today, Free, Paid} |
| ProductFilterPanel.ProductFilters.SetPrice | src/components/products/ProductFilters.tsx:364-369 | only `price` changes, and it stays within [0, 100] |
| ProductFilterPanel.ProductFilters.SetStarRating | src/components/products/ProductFilters.tsx:380-384 | only `starRating` changes; it becomes the clicked star, whatever it was before, and that many stars render filled |
| ProductFilterPanel.ProductFilters.SetTags | src/components/products/ProductFilters.tsx:132-136 | one tag field's setter: only that field's list changes, to the given tags, and the invariant holds |
| ProductFilterPanel.ProductFilters.SelectTag | src/components/products/ProductFilters.tsx:59-62 | the new state is the pick applied to the old one, and the invariant holds; an id no option carries changes nothing; an offered pick keeps ids distinct, withdraws the id from the dropdown and adds one to the applied count |
| ProductFilterPanel.ProductFilters.RemoveTag | src/components/products/ProductFilters.tsx:246-248 | the new state is the removal applied to the old one (a no-op for `version`), and the invariant and distinct ids hold; every option carrying the id is offered again; removing a present id lowers the applied count by one |
| ProductFilterPanel.ProductFilters.ClearAll | src/components/products/ProductFilters.tsx:142-157 | every cell except `selectedProduct` returns to its mount value; the invariant and distinct ids hold; the applied count is 0 |

## Left out

- JSX markup, CSS classes and the rendering of each control: these are presentational.
- `FilterHeader` (src/components/products/ProductFilters.tsx:8-25) only displays the count and an optional button. The count it shows is `AppliedCount`.
- The slider's gradient string (src/components/products/ProductFilters.tsx:179-180) is cosmetic. It is also built with floating-point arithmetic, which the model does not cover. Price is an integer.
- React's state scheduling and batching. Each handler is one synchronous update, and clear-all's fourteen setter calls are one update.
- DOM events: a handler takes a parameter in place of `e.target.value`. Date inputs are opaque strings that the code never parses.
- SetPrice: `Number(e.target.value)` is not modelled. The range input supplies an integer from 0 to 100, which is the method's precondition.
- SetCondition, SetCost, SetDateOption, SetSelectedProduct, SetStarRating: each takes its value from the fixed list the buttons are rendered from, which is the method's precondition.
- SelectTag: for `version` the model skips the lookup rather than running it over the empty option list. Both find nothing, so the state is the same.
- `src/pages/Index.tsx` only composes components that are not part of this model.
- `src/components/products/ProductGrid.tsx` renders nine fixed placeholder cards and has no state.
- `src/components/products/ProductTabs.tsx` has one replace-on-click field over three fixed tab names. It is independent of the filter panel.
