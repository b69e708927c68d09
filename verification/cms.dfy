/**
 * The two content managers of the admin page: articles and demos
 * (components/CmsSection.tsx) and downloadable resources
 * (components/ResourcesCmsSection.tsx). Both keep a list keyed by `id` and
 * offer delete, edit and add through the same editor.
 */
module Cms {
  import opened Wrappers
  import opened Seqs
  import opened Types

  /** Whether a record's key differs from `id`, for any keyed record. */
  function KeyIsNot<T>(key: T -> string, id: string): T -> bool
  {
    (x: T) => key(x) != id
  }

  /** Whether a record's key is `id`. */
  function KeyIs<T>(key: T -> string, id: string): T -> bool
  {
    (x: T) => key(x) == id
  }

  /** No two items share a key. */
  predicate DistinctKeys<T>(items: seq<T>, key: T -> string)
  {
    forall i, j :: 0 <= i < j < |items| ==> key(items[i]) != key(items[j])
  }

  /**
   * `handleDelete`: once the visitor confirms, every item with the id is
   * dropped and the others keep their order; without confirmation nothing
   * changes.
   */
  function Delete<T>(items: seq<T>, key: T -> string, id: string, confirmed: bool): (r: seq<T>)
    ensures !confirmed ==> r == items
    ensures confirmed ==> forall i :: 0 <= i < |r| ==> key(r[i]) != id && r[i] in items
    ensures confirmed ==> forall i :: 0 <= i < |items| && key(items[i]) != id ==> items[i] in r
  {
    if confirmed then Filter(KeyIsNot(key, id), items) else items
  }

  /**
   * What a confirmed delete keeps and what it drops together make up the
   * list: nothing is lost but the items with the id, and the kept items
   * stay in order.
   */
  lemma DeleteSplits<T>(items: seq<T>, key: T -> string, id: string)
    ensures multiset(Delete(items, key, id, true)) + multiset(Filter(KeyIs(key, id), items)) == multiset(items)
    ensures IsSubseq(Delete(items, key, id, true), items)
  {
    FilterSplit(KeyIsNot(key, id), KeyIs(key, id), items);
    FilterIsSubseq(KeyIsNot(key, id), items);
  }

  /** Saving an edit: every record with the edited record's key is swapped for it, in place; the rest stay. */
  function Replace<T>(items: seq<T>, key: T -> string, item: T): (r: seq<T>)
    ensures |r| == |items|
    ensures forall i :: 0 <= i < |items| ==> r[i] == (if key(items[i]) == key(item) then item else items[i])
  {
    if |items| == 0 then []
    else [if key(items[0]) == key(item) then item else items[0]] + Replace(items[1..], key, item)
  }

  /** Saving a new item: `[item, ...prev]`. */
  function Prepend<T>(items: seq<T>, item: T): (r: seq<T>)
    ensures |r| == |items| + 1 && r[0] == item && r[1..] == items
  {
    [item] + items
  }

  /** Saving an edit twice is saving it once. */
  lemma ReplaceIdempotent<T>(items: seq<T>, key: T -> string, item: T)
    ensures Replace(Replace(items, key, item), key, item) == Replace(items, key, item)
  {
  }

  /** Saving an item equal to the one stored under its key, with keys distinct, changes nothing. */
  lemma ReplaceSame<T>(items: seq<T>, key: T -> string, k: nat)
    requires DistinctKeys(items, key) && k < |items|
    ensures Replace(items, key, items[k]) == items
  {
    var r := Replace(items, key, items[k]);
    forall i | 0 <= i < |items|
      ensures r[i] == items[i]
    {
      if i < k {
        assert key(items[i]) != key(items[k]);
      } else if k < i {
        assert key(items[k]) != key(items[i]);
      }
    }
  }

  /** Deleting the key of an edited item removes the edit with it: edit-then-delete is delete. */
  lemma {:induction false} ReplaceThenDelete<T>(items: seq<T>, key: T -> string, item: T)
    ensures Delete(Replace(items, key, item), key, key(item), true) == Delete(items, key, key(item), true)
  {
    if |items| > 0 {
      ReplaceThenDelete(items[1..], key, item);
      var r := Replace(items, key, item);
      assert r[1..] == Replace(items[1..], key, item);
    }
  }

  /** Deleting a freshly added item whose key was new gives the list back. */
  lemma AddThenDelete<T>(items: seq<T>, key: T -> string, item: T)
    requires forall i :: 0 <= i < |items| ==> key(items[i]) != key(item)
    ensures Delete(Prepend(items, item), key, key(item), true) == items
  {
    assert Prepend(items, item)[1..] == items;
  }

  /** Adding keeps keys distinct when the new key is fresh; editing always does. */
  lemma SavesKeepDistinct<T>(items: seq<T>, key: T -> string, item: T)
    requires DistinctKeys(items, key)
    ensures (forall i :: 0 <= i < |items| ==> key(items[i]) != key(item)) ==> DistinctKeys(Prepend(items, item), key)
    ensures DistinctKeys(Replace(items, key, item), key)
  {
    var r := Replace(items, key, item);
    forall i, j | 0 <= i < j < |r|
      ensures key(r[i]) != key(r[j])
    {
      assert key(r[i]) == key(items[i]) && key(r[j]) == key(items[j]);
    }
    if forall i :: 0 <= i < |items| ==> key(items[i]) != key(item) {
      var p := Prepend(items, item);
      forall i, j | 0 <= i < j < |p|
        ensures key(p[i]) != key(p[j])
      {
        assert p[j] == items[j - 1];
        if i > 0 {
          assert p[i] == items[i - 1];
        }
      }
    }
  }

  /** The editor panel: whether the form is shown, and the item being edited (`null` when adding). */
  datatype Editor<T> = Editor(visible: bool, editing: Option<T>)

  /** "Add New": an empty form. */
  function AddNew<T>(): (r: Editor<T>)
    ensures r.visible && r.editing.None?
  {
    Editor(true, None)
  }

  /** "Edit": the form for that item. */
  function Edit<T>(item: T): (r: Editor<T>)
    ensures r.visible && r.editing == Some(item)
  {
    Editor(true, Some(item))
  }

  /** Cancel, and the end of a save: the form is hidden and nothing is being edited. */
  function Closed<T>(): (r: Editor<T>)
    ensures !r.visible && r.editing.None?
  {
    Editor(false, None)
  }

  /**
   * `handleSave`: while editing, the item replaces the items with its id;
   * while adding, it goes in front. Either way the editor closes.
   */
  function Save<T>(items: seq<T>, key: T -> string, e: Editor<T>, item: T): (r: (seq<T>, Editor<T>))
    ensures r.1 == Closed()
    ensures e.editing.Some? ==> r.0 == Replace(items, key, item) && |r.0| == |items|
    ensures e.editing.None? ==> r.0 == Prepend(items, item) && |r.0| == |items| + 1
  {
    if e.editing.Some? then (Replace(items, key, item), Closed()) else (Prepend(items, item), Closed())
  }

  /** The four text fields of the content form. */
  datatype ContentForm = ContentForm(title: string, description: string, category: string, imageUrl: string)

  /** The form as opened: the edited item's fields, or empty fields when adding. */
  function OpenContentForm(editing: Option<Content>): (f: ContentForm)
    ensures editing.None? ==> f == ContentForm("", "", "", "")
    ensures editing.Some? ==>
      (f.title == editing.value.title && f.description == editing.value.description
       && f.category == editing.value.category && f.imageUrl == editing.value.imageUrl)
  {
    match editing
    case None => ContentForm("", "", "", "")
    case Some(c) => ContentForm(c.title, c.description, c.category, c.imageUrl)
  }

  /** Every field marked `required` is filled in, so the browser lets the form submit. */
  predicate ContentFilled(f: ContentForm)
  {
    |f.title| > 0 && |f.description| > 0 && |f.category| > 0 && |f.imageUrl| > 0
  }

  /**
   * `CmsForm.handleSubmit`: an edit overwrites the four fields and keeps the
   * id, the type, the demo and the full text; a new item gets the fresh id
   * and is an article without demo or full text.
   */
  function SubmitContent(editing: Option<Content>, f: ContentForm, freshId: string): (r: Option<Content>)
    ensures r.Some? <==> ContentFilled(f)
    ensures r.Some? ==>
      (r.value.title == f.title && r.value.description == f.description
       && r.value.category == f.category && r.value.imageUrl == f.imageUrl)
    ensures r.Some? && editing.Some? ==>
      (r.value.id == editing.value.id && r.value.kind == editing.value.kind
       && r.value.demoComponent == editing.value.demoComponent && r.value.fullContent == editing.value.fullContent)
    ensures r.Some? && editing.None? ==>
      (r.value.id == freshId && r.value.kind == Article
       && r.value.demoComponent.None? && r.value.fullContent.None?)
  {
    if !ContentFilled(f) then None
    else match editing
      case Some(c) => Some(c.(title := f.title, description := f.description, category := f.category, imageUrl := f.imageUrl))
      case None => Some(Content(freshId, f.title, f.description, f.category, f.imageUrl, Article, None, None))
  }

  function ContentId(c: Content): string
  {
    c.id
  }

  /**
   * Opening an item for editing and submitting the form untouched saves the
   * item unchanged, so with distinct ids the list stays as it was.
   */
  lemma EditUnchangedContent(items: seq<Content>, k: nat, freshId: string)
    requires DistinctKeys(items, ContentId) && k < |items|
    requires ContentFilled(OpenContentForm(Some(items[k])))
    ensures SubmitContent(Some(items[k]), OpenContentForm(Some(items[k])), freshId) == Some(items[k])
    ensures Save(items, ContentId, Edit(items[k]), items[k]).0 == items
  {
    ReplaceSame(items, ContentId, k);
  }

  /** The fields of the resource form. */
  datatype ResourceForm = ResourceForm(title: string, description: string, kind: ResourceKind, imageUrl: string)

  /** The resource form as opened: the edited resource's fields, or a template with empty text when adding. */
  function OpenResourceForm(editing: Option<Resource>): (f: ResourceForm)
    ensures editing.None? ==> f == ResourceForm("", "", Template, "")
    ensures editing.Some? ==>
      (f.title == editing.value.title && f.description == editing.value.description
       && f.kind == editing.value.kind && f.imageUrl == editing.value.imageUrl)
  {
    match editing
    case None => ResourceForm("", "", Template, "")
    case Some(r) => ResourceForm(r.title, r.description, r.kind, r.imageUrl)
  }

  predicate ResourceFilled(f: ResourceForm)
  {
    |f.title| > 0 && |f.description| > 0 && |f.imageUrl| > 0
  }

  /** `ResourceForm.handleSubmit`: the edited resource's id or the fresh one, and the form's fields. */
  function SubmitResource(editing: Option<Resource>, f: ResourceForm, freshId: string): (r: Option<Resource>)
    ensures r.Some? <==> ResourceFilled(f)
    ensures r.Some? ==> r.value.id == (if editing.Some? then editing.value.id else freshId)
    ensures r.Some? ==>
      (r.value.title == f.title && r.value.description == f.description
       && r.value.kind == f.kind && r.value.imageUrl == f.imageUrl)
  {
    if !ResourceFilled(f) then None
    else Some(Resource(if editing.Some? then editing.value.id else freshId, f.title, f.description, f.kind, f.imageUrl))
  }

  function ResourceId(r: Resource): string
  {
    r.id
  }

  /** Submitting a resource's form untouched saves it unchanged; with distinct ids the list stays as it was. */
  lemma EditUnchangedResource(items: seq<Resource>, k: nat, freshId: string)
    requires DistinctKeys(items, ResourceId) && k < |items|
    requires ResourceFilled(OpenResourceForm(Some(items[k])))
    ensures SubmitResource(Some(items[k]), OpenResourceForm(Some(items[k])), freshId) == Some(items[k])
    ensures Save(items, ResourceId, Edit(items[k]), items[k]).0 == items
  {
    ReplaceSame(items, ResourceId, k);
  }
}
