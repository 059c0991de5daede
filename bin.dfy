/**
 * The legacy store of prompt units (proteas/bin.py): a list of units that can
 * be searched by name and filtered by category.
 */
module Bin {
  import opened Wrappers
  import opened LegacyUnit

  /** The category the legacy code treats as a source of questions. */
  const QuestionableCategory := "context_prompts"

  /** The first stored unit with the given name, if any. */
  function FirstWithName(us: seq<PromptTemplateUnit>, name: string): (r: Option<PromptTemplateUnit>)
    ensures r.None? <==> forall i :: 0 <= i < |us| ==> us[i].name != name
    ensures r.Some? ==> r.value.name == name
    ensures r.Some? ==> exists i :: 0 <= i < |us| && us[i] == r.value && (forall j :: 0 <= j < i ==> us[j].name != name)
  {
    if us == [] then None
    else if us[0].name == name then Some(us[0])
    else
      var r := FirstWithName(us[1..], name);
      assert forall j :: 0 <= j < |us| - 1 ==> us[1..][j] == us[j + 1];
      r
  }

  /** Adding at the end never hides an earlier match. */
  lemma {:induction false} FirstWithNameAppend(us: seq<PromptTemplateUnit>, u: PromptTemplateUnit, name: string)
    ensures FirstWithName(us + [u], name) ==
      if FirstWithName(us, name).Some? then FirstWithName(us, name)
      else if u.name == name then Some(u) else None
  {
    if us != [] {
      assert (us + [u])[1..] == us[1..] + [u];
      FirstWithNameAppend(us[1..], u, name);
    }
  }

  /** The stored units of one category, in storage order. */
  function WithCategory(us: seq<PromptTemplateUnit>, cat: Option<string>): (r: seq<PromptTemplateUnit>)
    ensures |r| <= |us|
    ensures forall u :: u in r ==> u in us && u.category == cat
    ensures forall u :: u in us && u.category == cat ==> u in r
  {
    if us == [] then []
    else
      var rest := WithCategory(us[1..], cat);
      assert forall u :: u in us[1..] ==> u in us;
      assert forall u :: u in us ==> u == us[0] || u in us[1..];
      if us[0].category == cat then [us[0]] + rest else rest
  }

  /** Filtering a concatenation filters each part. */
  lemma {:induction false} WithCategoryAppend(a: seq<PromptTemplateUnit>, b: seq<PromptTemplateUnit>, cat: Option<string>)
    ensures WithCategory(a + b, cat) == WithCategory(a, cat) + WithCategory(b, cat)
  {
    if a != [] {
      assert (a + b)[1..] == a[1..] + b;
      WithCategoryAppend(a[1..], b, cat);
    } else {
      assert a + b == b;
    }
  }

  /** Filtering twice by the same category changes nothing. */
  lemma {:induction false} WithCategoryIdempotent(us: seq<PromptTemplateUnit>, cat: Option<string>)
    ensures WithCategory(WithCategory(us, cat), cat) == WithCategory(us, cat)
  {
    if us != [] {
      WithCategoryIdempotent(us[1..], cat);
      var rest := WithCategory(us[1..], cat);
      if us[0].category == cat {
        assert ([us[0]] + rest)[1..] == rest;
      }
    }
  }

  class Bin {
    var storage: seq<PromptTemplateUnit>
    var questinables: seq<PromptTemplateUnit>

    constructor()
      ensures storage == [] && questinables == []
    {
      storage := [];
      questinables := [];
    }

    /** `add(thing)`: append to the storage. */
    method Add(thing: PromptTemplateUnit)
      modifies this`storage
      ensures storage == old(storage) + [thing]
    {
      storage := storage + [thing];
    }

    /** `reset()`: empty the storage; the questionable list is kept. */
    method Reset()
      modifies this`storage
      ensures storage == []
    {
      storage := [];
    }

    /** `bring(name)`: the first stored unit with that name, or None. */
    method Bring(name: string) returns (r: Option<PromptTemplateUnit>)
      ensures r == FirstWithName(storage, name)
    {
      var i := 0;
      while i < |storage|
        invariant 0 <= i <= |storage|
        invariant forall j :: 0 <= j < i ==> storage[j].name != name
      {
        if storage[i].name == name {
          FirstWithNameSplit(storage, i, name);
          return Some(storage[i]);
        }
        i := i + 1;
      }
      return None;
    }

    /** `bring_by_category(cat)`: the stored units of that category, in order. */
    method BringByCategory(cat: Option<string>) returns (selections: seq<PromptTemplateUnit>)
      ensures selections == WithCategory(storage, cat)
    {
      selections := [];
      var i := 0;
      while i < |storage|
        invariant 0 <= i <= |storage|
        invariant selections == WithCategory(storage[..i], cat)
      {
        WithCategoryAppend(storage[..i], [storage[i]], cat);
        assert storage[..i + 1] == storage[..i] + [storage[i]];
        if storage[i].category == cat {
          selections := selections + [storage[i]];
        }
        i := i + 1;
      }
      assert storage[..i] == storage;
    }

    /** `find_questionable_prompts()`: remember the stored "context_prompts" units. */
    method FindQuestionablePrompts()
      modifies this`questinables
      ensures questinables == WithCategory(storage, Some(QuestionableCategory))
    {
      questinables := BringByCategory(Some(QuestionableCategory));
    }
  }

  /** A name match at `i` with none before it is the first match. */
  lemma {:induction false} FirstWithNameSplit(us: seq<PromptTemplateUnit>, i: nat, name: string)
    requires i < |us| && us[i].name == name
    requires forall j :: 0 <= j < i ==> us[j].name != name
    ensures FirstWithName(us, name) == Some(us[i])
  {
    if i > 0 {
      assert forall j :: 0 <= j < i - 1 ==> us[1..][j] == us[j + 1];
      FirstWithNameSplit(us[1..], i - 1, name);
    }
  }
}
