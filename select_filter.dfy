/** The multi-select-by-tag control of the product filter panel: the tag value,
    the dropdown's option exclusion, the lookup of a picked entry, and the two
    functional updates a tag list goes through (append and remove by id). */
module SelectFilter {

  datatype Option<T> = None | Some(value: T)

  /** A selectable filter value; the options of one field are told apart by `id`.
      `text` is the tag's display label (`label` is a reserved word in Dafny). */
  datatype Tag = Tag(id: string, text: string)

  /** Some tag of `tags` carries `id`, which is when the lookup by id in
      src/components/products/ProductFilters.tsx:50 finds something. */
  predicate Mentions(tags: seq<Tag>, id: string)
  {
    exists i :: 0 <= i < |tags| && tags[i].id == id
  }

  /** No two tags of the list share an id. */
  predicate DistinctIds(tags: seq<Tag>)
  {
    forall i, j :: 0 <= i < j < |tags| ==> tags[i].id != tags[j].id
  }

  /** The lookup by id (src/components/products/ProductFilters.tsx:60): the first tag
      carrying `id`, if there is one. */
  function Find(tags: seq<Tag>, id: string): (r: Option<Tag>)
    ensures r.None? <==> !Mentions(tags, id)
    ensures r.Some? ==>
      exists k :: 0 <= k < |tags| && tags[k] == r.value && r.value.id == id &&
        forall j :: 0 <= j < k ==> tags[j].id != id
  {
    if tags == [] then None
    else if tags[0].id == id then Some(tags[0])
    else
      var r := Find(tags[1..], id);
      assert Mentions(tags, id) ==> Mentions(tags[1..], id) by {
        if Mentions(tags, id) {
          var i :| 0 <= i < |tags| && tags[i].id == id;
          assert tags[1..][i - 1].id == id;
        }
      }
      assert r.Some? ==> Mentions(tags, id) by {
        if r.Some? {
          var k :| 0 <= k < |tags[1..]| && tags[1..][k] == r.value && r.value.id == id;
          assert tags[k + 1].id == id;
        }
      }
      if r.Some? then
        var k :| 0 <= k < |tags[1..]| && tags[1..][k] == r.value && r.value.id == id &&
          forall j :: 0 <= j < k ==> tags[1..][j].id != id;
        assert tags[k + 1] == r.value && forall j :: 0 <= j < k + 1 ==> tags[j].id != id by {
          forall j | 0 <= j < k + 1 ensures tags[j].id != id {
            if j > 0 { assert tags[j] == tags[1..][j - 1]; }
          }
        }
        r
      else r
  }

  /** The dropdown's entries (src/components/products/ProductFilters.tsx:49-51): exactly the
      options whose id no selected tag carries (AvailableMembers), each as often as in
      `options` (AvailableMultiplicity) and in their order (AvailableConcat). */
  function Available(options: seq<Tag>, selected: seq<Tag>): (r: seq<Tag>)
    ensures |r| <= |options|
  {
    if options == [] then []
    else
      var head := if Mentions(selected, options[0].id) then [] else [options[0]];
      head + Available(options[1..], selected)
  }

  /** The remove updater (src/components/products/ProductFilters.tsx:247): every tag carrying
      `id` goes and every other tag stays (RemovedMembers), as often as before
      (RemovedMultiplicity) and in order (RemovedConcat). */
  function Removed(tags: seq<Tag>, id: string): (r: seq<Tag>)
    ensures |r| <= |tags|
  {
    if tags == [] then []
    else
      var head := if tags[0].id == id then [] else [tags[0]];
      head + Removed(tags[1..], id)
  }

  /** The dropdown's change handler: look the picked id up in the FULL option list and, if an
      option carries it, append the first such option to the end of the list (the add updater);
      an id no option carries, such as the placeholder `""`, changes nothing. */
  function SelectById(options: seq<Tag>, selected: seq<Tag>, id: string): (r: seq<Tag>)
    ensures forall t :: t in r ==> t in selected || t in options
    ensures !Mentions(options, id) ==> r == selected
    ensures Mentions(options, id) ==>
      |r| == |selected| + 1 && r[..|selected|] == selected && r[|selected|].id == id &&
      exists k :: 0 <= k < |options| && options[k] == r[|selected|] &&
        forall j :: 0 <= j < k ==> options[j].id != id
  {
    match Find(options, id)
    case None => selected
    case Some(t) => selected + [t]
  }

  /** The dropdown keeps the options' order: filtering distributes over concatenation. */
  lemma {:induction false} AvailableConcat(a: seq<Tag>, b: seq<Tag>, selected: seq<Tag>)
    ensures Available(a + b, selected) == Available(a, selected) + Available(b, selected)
  {
    if a == [] {
      assert a + b == b;
    } else {
      var head := if Mentions(selected, a[0].id) then [] else [a[0]];
      assert (a + b)[0] == a[0];
      assert (a + b)[1..] == a[1..] + b;
      AvailableConcat(a[1..], b, selected);
      calc {
        Available(a + b, selected);
        head + Available(a[1..] + b, selected);
        head + (Available(a[1..], selected) + Available(b, selected));
        (head + Available(a[1..], selected)) + Available(b, selected);
        Available(a, selected) + Available(b, selected);
      }
    }
  }

  /** An entry is offered iff it is an option whose id no selected tag carries; so no offered
      entry shares an id with a selected tag. */
  lemma {:induction false} AvailableMembers(options: seq<Tag>, selected: seq<Tag>)
    ensures forall t :: t in Available(options, selected) <==> t in options && !Mentions(selected, t.id)
    ensures forall i, j :: 0 <= i < |Available(options, selected)| && 0 <= j < |selected| ==>
      Available(options, selected)[i].id != selected[j].id
  {
    var r := Available(options, selected);
    if options != [] {
      AvailableMembers(options[1..], selected);
      assert options == [options[0]] + options[1..];
    }
    forall i, j | 0 <= i < |r| && 0 <= j < |selected| ensures r[i].id != selected[j].id {
      assert r[i] in r;
    }
  }

  /** A tag survives removal iff it was in the list and does not carry `id`. */
  lemma {:induction false} RemovedMembers(tags: seq<Tag>, id: string)
    ensures forall t :: t in Removed(tags, id) <==> t in tags && t.id != id
    ensures !Mentions(Removed(tags, id), id)
  {
    var r := Removed(tags, id);
    if tags != [] {
      RemovedMembers(tags[1..], id);
      assert tags == [tags[0]] + tags[1..];
    }
    forall i | 0 <= i < |r| ensures r[i].id != id {
      assert r[i] in r;
    }
  }

  /** Each option is offered exactly as often as it occurs in `options`, unless its id is selected. */
  lemma {:induction false} AvailableMultiplicity(options: seq<Tag>, selected: seq<Tag>, t: Tag)
    ensures multiset(Available(options, selected))[t] ==
      if Mentions(selected, t.id) then 0 else multiset(options)[t]
  {
    if options != [] {
      var head := if Mentions(selected, options[0].id) then [] else [options[0]];
      AvailableMultiplicity(options[1..], selected, t);
      assert options == [options[0]] + options[1..];
      assert multiset(options) == multiset([options[0]]) + multiset(options[1..]);
      assert multiset(Available(options, selected)) == multiset(head) + multiset(Available(options[1..], selected));
    }
  }

  /** Each tag not carrying `id` survives removal exactly as often as it occurred. */
  lemma {:induction false} RemovedMultiplicity(tags: seq<Tag>, id: string, t: Tag)
    ensures multiset(Removed(tags, id))[t] == if t.id == id then 0 else multiset(tags)[t]
  {
    if tags != [] {
      var head := if tags[0].id == id then [] else [tags[0]];
      RemovedMultiplicity(tags[1..], id, t);
      assert tags == [tags[0]] + tags[1..];
      assert multiset(tags) == multiset([tags[0]]) + multiset(tags[1..]);
      assert multiset(Removed(tags, id)) == multiset(head) + multiset(Removed(tags[1..], id));
    }
  }

  /** One step of removal: the head survives iff it does not carry the id. */
  lemma RemovedCons(x: Tag, rest: seq<Tag>, id: string)
    ensures Removed([x] + rest, id) == (if x.id == id then [] else [x]) + Removed(rest, id)
  {
    assert ([x] + rest)[1..] == rest;
  }

  /** Removal keeps the order of the tags that survive. */
  lemma {:induction false} RemovedConcat(a: seq<Tag>, b: seq<Tag>, id: string)
    ensures Removed(a + b, id) == Removed(a, id) + Removed(b, id)
  {
    if a == [] {
      assert a + b == b;
    } else {
      var x, rest := a[0], a[1..];
      var head := if x.id == id then [] else [x];
      assert a == [x] + rest;
      assert a + b == [x] + (rest + b);
      RemovedCons(x, rest + b, id);
      RemovedCons(x, rest, id);
      RemovedConcat(rest, b, id);
      assert head + (Removed(rest, id) + Removed(b, id)) == (head + Removed(rest, id)) + Removed(b, id);
    }
  }

  /** Removing an id no tag carries leaves the list as it was. */
  lemma {:induction false} RemoveAbsent(tags: seq<Tag>, id: string)
    requires !Mentions(tags, id)
    ensures Removed(tags, id) == tags
  {
    if tags != [] {
      assert tags[0].id != id;
      forall i | 0 <= i < |tags[1..]| ensures tags[1..][i].id != id {
        assert tags[1..][i] == tags[i + 1];
      }
      RemoveAbsent(tags[1..], id);
      assert tags == [tags[0]] + tags[1..];
    }
  }

  /** Removing twice is removing once. */
  lemma RemoveTwice(tags: seq<Tag>, id: string)
    ensures Removed(Removed(tags, id), id) == Removed(tags, id)
  {
    RemovedMembers(tags, id);
    RemoveAbsent(Removed(tags, id), id);
  }

  /** Removal keeps the selected ids pairwise distinct. */
  lemma {:induction false} RemovedKeepsDistinct(tags: seq<Tag>, id: string)
    requires DistinctIds(tags)
    ensures DistinctIds(Removed(tags, id))
  {
    if tags != [] {
      var rest := Removed(tags[1..], id);
      RemovedKeepsDistinct(tags[1..], id);
      RemovedMembers(tags[1..], id);
      if tags[0].id != id {
        forall j | 0 <= j < |rest| ensures rest[j].id != tags[0].id {
          assert rest[j] in tags[1..];
          var m :| 0 <= m < |tags[1..]| && tags[1..][m] == rest[j];
          assert tags[m + 1] == rest[j];
        }
        var r := [tags[0]] + rest;
        forall i, j | 0 <= i < j < |r| ensures r[i].id != r[j].id {
          if i > 0 { assert r[i] == rest[i - 1] && r[j] == rest[j - 1]; }
          else { assert r[j] == rest[j - 1]; }
        }
      }
    }
  }

  /** With distinct ids, removing an id that is present shrinks the list by exactly one. */
  lemma {:induction false} RemoveDistinctShrinks(tags: seq<Tag>, id: string)
    requires DistinctIds(tags) && Mentions(tags, id)
    ensures |Removed(tags, id)| == |tags| - 1
  {
    if tags[0].id == id {
      forall i | 0 <= i < |tags[1..]| ensures tags[1..][i].id != id {
        assert tags[1..][i] == tags[i + 1];
      }
      RemoveAbsent(tags[1..], id);
    } else {
      assert Mentions(tags[1..], id) by {
        var i :| 0 <= i < |tags| && tags[i].id == id;
        assert tags[1..][i - 1].id == id;
      }
      RemoveDistinctShrinks(tags[1..], id);
    }
  }

  /** Appending a tag whose id is not yet selected and then removing that id gives back the list. */
  lemma AddThenRemove(selected: seq<Tag>, t: Tag)
    requires !Mentions(selected, t.id)
    ensures Removed(selected + [t], t.id) == selected
  {
    RemovedConcat(selected, [t], t.id);
    RemoveAbsent(selected, t.id);
  }

  /** After removing `id`, every option that carries it is offered in the dropdown again. */
  lemma RemoveRestoresOption(options: seq<Tag>, selected: seq<Tag>, id: string)
    ensures forall o :: o in options && o.id == id ==> o in Available(options, Removed(selected, id))
  {
    RemovedMembers(selected, id);
    AvailableMembers(options, Removed(selected, id));
  }

  /** Picking an offered entry keeps the selected ids distinct and withdraws the id from
      the dropdown. */
  lemma SelectOfferedKeepsDistinct(options: seq<Tag>, selected: seq<Tag>, id: string)
    requires DistinctIds(selected)
    requires Mentions(Available(options, selected), id)
    ensures |SelectById(options, selected, id)| == |selected| + 1
    ensures DistinctIds(SelectById(options, selected, id))
    ensures !Mentions(Available(options, SelectById(options, selected, id)), id)
  {
    var avail := Available(options, selected);
    AvailableMembers(options, selected);
    var i :| 0 <= i < |avail| && avail[i].id == id;
    assert avail[i] in avail;
    assert avail[i] in options;
    assert !Mentions(selected, id);
    var r := SelectById(options, selected, id);
    assert Mentions(options, id) by {
      var k :| 0 <= k < |options| && options[k] == avail[i];
    }
    assert r == selected + [r[|selected|]];
    forall a, b | 0 <= a < b < |r| ensures r[a].id != r[b].id {
      if b == |selected| {
        assert r[a] == selected[a];
      } else {
        assert r[a] == selected[a] && r[b] == selected[b];
      }
    }
    assert Mentions(r, id) by { assert r[|selected|].id == id; }
    AvailableMembers(options, r);
  }
}
