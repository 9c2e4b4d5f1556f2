/** The item-list controller of script.js as an object: the in-memory list, the browser
    store, the listener registry, the list view and the add/edit form, and the handlers
    that update them. */
module ItemApp {
  import opened Strings
  import opened Items

  /** The elements `mountApp` looks up by id, and the document. `AddForm` stands for
      `#addItemForm` together with its inputs and its submit button. */
  datatype Target = AddForm | ClearButton | ImageUrlInput | SearchBox | FilterSelect
                  | SortSelect | ItemsList | FileInput | CancelEditButton | ItemsCount | Document

  /** The elements the current document has. */
  type Elements = set<Target>

  /** The event types the controller listens for. */
  datatype Kind = Submit | Click | Input | Change | Keydown

  /** One `{el, type, handler}` record of `_listeners`. */
  datatype Listener = Listener(target: Target, kind: Kind)

  /** `el` is non-null: the element is in the document, or is the document itself. */
  predicate Exists(els: Elements, t: Target) {
    t in els || t == Document
  }

  /** The first five `addListener` calls of `mountApp`: the form and the list controls. */
  const ControlTable: seq<Listener> :=
    [ Listener(AddForm, Submit), Listener(ClearButton, Click), Listener(ImageUrlInput, Input),
      Listener(SearchBox, Input), Listener(FilterSelect, Change) ]

  /** The last five: the sort select, the list, the file input, the cancel button and the
      document. */
  const ListTable: seq<Listener> :=
    [ Listener(SortSelect, Change), Listener(ItemsList, Click), Listener(FileInput, Change),
      Listener(CancelEditButton, Click), Listener(Document, Keydown) ]

  /** The `addListener` calls of `mountApp`, in order. */
  const Table: seq<Listener> := ControlTable + ListTable

  /** What one `addListener(el, type, handler)` records: nothing for a missing element. */
  function Reg(els: Elements, l: Listener): seq<Listener> {
    if Exists(els, l.target) then [l] else []
  }

  /** The registry after the `addListener` calls of `ls`, in order. */
  function Registered(els: Elements, ls: seq<Listener>): seq<Listener>
    decreases |ls|
  {
    if ls == [] then [] else Registered(els, ls[..|ls| - 1]) + Reg(els, ls[|ls| - 1])
  }

  /** The registrations of one `mountApp`. */
  function MountListeners(els: Elements): seq<Listener> {
    Registered(els, Table)
  }

  /** Five calls, one by one. */
  lemma RegisteredFive(els: Elements, t: seq<Listener>)
    requires |t| == 5
    ensures Registered(els, t) == Reg(els, t[0]) + Reg(els, t[1]) + Reg(els, t[2]) + Reg(els, t[3]) + Reg(els, t[4])
  {
    assert t[..4][..3] == t[..3];
    assert t[..3][..2] == t[..2];
    assert t[..2][..1] == t[..1];
    assert t[..1][..0] == [];
    assert Registered(els, t[..1]) == Reg(els, t[0]);
    assert Registered(els, t[..2]) == Registered(els, t[..1]) + Reg(els, t[1]);
    assert Registered(els, t[..3]) == Registered(els, t[..2]) + Reg(els, t[2]);
    assert Registered(els, t[..4]) == Registered(els, t[..3]) + Reg(els, t[3]);
    assert Registered(els, t) == Registered(els, t[..4]) + Reg(els, t[4]);
  }

  /** Appending five pieces one by one appends their concatenation. */
  lemma AppendFive<T>(a: seq<T>, r1: seq<T>, r2: seq<T>, r3: seq<T>, r4: seq<T>, r5: seq<T>)
    ensures a + r1 + r2 + r3 + r4 + r5 == a + (r1 + r2 + r3 + r4 + r5)
  {
  }

  lemma AppendEmpty<T>(a: seq<T>)
    ensures [] + a == a
  {
  }

  /** The registry holds exactly the calls whose element exists. */
  lemma {:induction false} RegisteredMembers(els: Elements, ls: seq<Listener>)
    ensures forall l :: l in Registered(els, ls) <==> l in ls && Exists(els, l.target)
    decreases |ls|
  {
    if ls != [] {
      var init := ls[..|ls| - 1];
      RegisteredMembers(els, init);
      assert ls == init + [ls[|ls| - 1]];
    }
  }

  /** Registering one more call appends at most that call. */
  lemma RegisteredSnoc(els: Elements, ls: seq<Listener>, l: Listener)
    ensures Registered(els, ls + [l]) == Registered(els, ls) + Reg(els, l)
  {
    assert (ls + [l])[..|ls|] == ls;
  }

  /** Registering two runs of calls one after the other. */
  lemma {:induction false} RegisteredAppend(els: Elements, a: seq<Listener>, b: seq<Listener>)
    ensures Registered(els, a + b) == Registered(els, a) + Registered(els, b)
    decreases |b|
  {
    if b == [] {
      assert a + b == a;
    } else {
      var init := b[..|b| - 1];
      var last := b[|b| - 1];
      assert a + b == (a + init) + [last];
      assert b == init + [last];
      RegisteredSnoc(els, a + init, last);
      RegisteredSnoc(els, init, last);
      RegisteredAppend(els, a, init);
    }
  }

  /** One mount registers exactly the calls of `mountApp` whose element exists, always
      including the document's `keydown` handler. */
  lemma MountListenersSpec(els: Elements)
    ensures forall l :: l in MountListeners(els) <==> l in Table && Exists(els, l.target)
    ensures Listener(Document, Keydown) in MountListeners(els)
  {
    RegisteredMembers(els, Table);
    assert Table[9] == Listener(Document, Keydown);
  }

  /** The input values of the add/edit form. */
  datatype Fields = Fields(name: string, desc: string, location: string, date: string,
                           contact: string, imageUrl: string)

  const Blank := Fields("", "", "", "", "", "")

  /** The form's state: its inputs, `dataset.editId` and `dataset.imageData` (empty when
      absent), the submit button's label and whether the cancel button shows. */
  datatype FormState = FormState(fields: Fields, editId: string, imageData: string,
                                 submitLabel: string, cancelShown: bool)

  /** `openAddForm()` on a present form: inputs reset, edit mode left and the label restored;
      the cancel button hides when it exists. */
  function AddMode(f: FormState, hasCancel: bool): FormState {
    f.(fields := Blank, editId := [], submitLabel := "Add Item",
       cancelShown := if hasCancel then false else f.cancelShown)
  }

  /** The edit-mode exit of a submit: only when an edit id is set. */
  function EndEdit(f: FormState, hasCancel: bool): FormState {
    if f.editId != [] then
      f.(editId := [], submitLabel := "Add Item", cancelShown := if hasCancel then false else f.cancelShown)
    else f
  }

  /** `form.reset()` followed by `clearImagePreview()`. */
  function Cleared(f: FormState): FormState {
    f.(fields := Blank, imageData := [])
  }

  /** The form `openEditForm(item)` leaves: the inputs show the item, a data URL or database
      reference becomes the image data with the URL input empty (any other image goes to
      the URL input and the image data is dropped), the edit id is the item's, the button
      reads `Save Changes` and the cancel button, when present, is shown. */
  function EditMode(f: FormState, item: Item, hasCancel: bool): FormState {
    var kept := IsDataUrl(item.image) || IsRef(item.image);
    FormState(Fields(item.name, item.desc, item.location, item.date, item.contact,
                     if kept then [] else item.image),
              item.id, if kept then item.image else [], "Save Changes",
              if hasCancel then true else f.cancelShown)
  }

  /** The form after a mount: `#add` opens the add form, then a signed-in user's contact
      fills the contact input, unless rendering or `openAddForm` threw first. */
  function Opened(f: FormState, dom: Elements, hash: string, profileContact: string): FormState {
    if !(FilterSelect in dom) then f else Prefilled(f, dom, hash, profileContact)
  }

  /** The form steps of a mount that rendered: `#add`, then the profile contact. */
  function Prefilled(f: FormState, dom: Elements, hash: string, profileContact: string): FormState {
    if hash == "#add" && !(AddForm in dom) then f
    else
      var added := if hash == "#add" then AddMode(f, CancelEditButton in dom) else f;
      if profileContact != [] && (AddForm in dom)
      then added.(fields := added.fields.(contact := profileContact)) else added
  }

  /** The values of the search box, the status filter and the sort select. */
  datatype Controls = Controls(search: string, filter: string, sortBy: string)

  /** An item handed to `window.findit.addItem`; a missing field is the empty string. */
  datatype Draft = Draft(name: string, desc: string, location: string, date: string,
                         contact: string, image: string, status: string)

  /** The record `addItem` builds: name trimmed, status defaulting to `lost`. */
  function FromDraft(d: Draft, id: string): Item {
    Item(id, Trim(d.name), d.desc, d.location, d.date, d.contact, d.image,
         if d.status == [] then Lost else d.status)
  }

  /** The image a submit saves: the stored image data, else the trimmed URL input. */
  function SubmittedImage(f: FormState): string {
    if f.imageData != [] then f.imageData else Trim(f.fields.imageUrl)
  }

  /** `item` with the fields a submit writes replaced from the form. */
  function Edited(item: Item, f: FormState): Item {
    item.(name := Trim(f.fields.name), desc := Trim(f.fields.desc),
          location := Trim(f.fields.location), date := f.fields.date,
          contact := Trim(f.fields.contact), image := SubmittedImage(f))
  }

  /** The list after a submit with a non-empty name. */
  function AfterSubmit(items: seq<Item>, f: FormState, freshId: string): seq<Item> {
    if f.editId != [] then
      var k := FindIndex(items, f.editId);
      if k >= 0 then items[k := Edited(items[k], f)] else items
    else
      [Edited(Item(freshId, "", "", "", "", "", "", Lost), f)] + items
  }

  /** Editing rewrites the first item with the edited id from the form, keeping its id and
      status (and its position). */
  lemma SubmitEditSpec(items: seq<Item>, f: FormState, freshId: string)
    requires f.editId != [] && FindIndex(items, f.editId) >= 0
    ensures var r := AfterSubmit(items, f, freshId);
            var k := FindIndex(items, f.editId);
            && |r| == |items|
            && r[k].id == f.editId && r[k].status == items[k].status
            && r[k] == items[k].(name := Trim(f.fields.name), desc := Trim(f.fields.desc),
                                 location := Trim(f.fields.location), date := f.fields.date,
                                 contact := Trim(f.fields.contact), image := SubmittedImage(f))
  {
  }

  /** Editing leaves every other item where and as it was. */
  lemma SubmitEditOthers(items: seq<Item>, f: FormState, freshId: string)
    requires f.editId != [] && FindIndex(items, f.editId) >= 0
    ensures var r := AfterSubmit(items, f, freshId);
            && |r| == |items|
            && forall j :: 0 <= j < |items| && j != FindIndex(items, f.editId) ==> r[j] == items[j]
  {
  }

  /** Opening an item for editing and saving the form untouched leaves the list as it was,
      for an item whose texts have no surrounding white space (as every submitted item's). */
  lemma EditRoundTrip(items: seq<Item>, k: int, f: FormState, hasCancel: bool, freshId: string)
    requires 0 <= k < |items| && items[k].id != [] && FindIndex(items, items[k].id) == k
    requires Trim(items[k].name) == items[k].name && Trim(items[k].desc) == items[k].desc
    requires Trim(items[k].location) == items[k].location && Trim(items[k].contact) == items[k].contact
    requires Trim(items[k].image) == items[k].image
    ensures AfterSubmit(items, EditMode(f, items[k], hasCancel), freshId) == items
  {
    var e := EditMode(f, items[k], hasCancel);
    if IsDataUrl(items[k].image) || IsRef(items[k].image) {
      assert items[k].image != [];
    }
    assert SubmittedImage(e) == items[k].image;
    assert Edited(items[k], e) == items[k];
    assert e.editId == items[k].id != [];
    assert items[k := items[k]] == items;
  }

  /** An edit id that no item has changes nothing. */
  lemma SubmitUnknownEdit(items: seq<Item>, f: FormState, freshId: string)
    requires f.editId != [] && FindIndex(items, f.editId) < 0
    ensures AfterSubmit(items, f, freshId) == items
  {
  }

  /** Without an edit id a new `lost` item with the fresh id is put first. */
  lemma SubmitNewSpec(items: seq<Item>, f: FormState, freshId: string)
    requires f.editId == []
    ensures var r := AfterSubmit(items, f, freshId);
            && |r| == |items| + 1 && r[1..] == items
            && r[0].id == freshId && r[0].status == Lost && r[0].name == Trim(f.fields.name)
            && r[0].image == SubmittedImage(f)
  {
  }

  /** The list after the toggle action on `id`. */
  function AfterToggle(items: seq<Item>, id: string): seq<Item> {
    var k := FindIndex(items, id);
    if k >= 0 then items[k := items[k].(status := Flip(items[k].status))] else items
  }

  /** Only the status of the targeted item changes; an unknown id changes nothing. */
  lemma AfterToggleSpec(items: seq<Item>, id: string)
    ensures var r := AfterToggle(items, id);
            var k := FindIndex(items, id);
            && |r| == |items|
            && (forall j :: 0 <= j < |items| && j != k ==> r[j] == items[j])
            && (k >= 0 ==> r[k] == items[k].(status := Flip(items[k].status)))
            && (k < 0 ==> r == items)
  {
  }

  /** Toggling the same item twice restores the list when its status was `lost` or `found`. */
  lemma ToggleTwice(items: seq<Item>, id: string)
    requires var k := FindIndex(items, id); k >= 0 ==> items[k].status in {Lost, Found}
    ensures AfterToggle(AfterToggle(items, id), id) == items
  {
    var k := FindIndex(items, id);
    if k >= 0 {
      var r := AfterToggle(items, id);
      assert FindIndex(r, id) == k by {
        assert forall j :: 0 <= j < |r| ==> r[j].id == items[j].id;
      }
      FlipTwice(items[k].status);
      assert AfterToggle(r, id) == r[k := r[k].(status := Flip(r[k].status))];
    }
  }

  /** The list after the delete action on `id`. */
  function AfterDelete(items: seq<Item>, id: string): seq<Item> {
    var k := FindIndex(items, id);
    if k >= 0 then items[..k] + items[k + 1..] else items
  }

  /** Exactly the first item with that id goes; the others keep their order. */
  lemma AfterDeleteSpec(items: seq<Item>, id: string)
    ensures var r := AfterDelete(items, id);
            var k := FindIndex(items, id);
            && (k >= 0 ==>
                  && |r| == |items| - 1
                  && multiset(r) + multiset{items[k]} == multiset(items)
                  && (forall j :: 0 <= j < k ==> r[j] == items[j])
                  && (forall j :: k <= j < |r| ==> r[j] == items[j + 1]))
            && (k < 0 ==> r == items)
  {
    var k := FindIndex(items, id);
    if k >= 0 {
      RemoveAt(items, k);
    }
  }

  /** Removing position `k` keeps everything else, in order. */
  lemma RemoveAt(items: seq<Item>, k: nat)
    requires k < |items|
    ensures var r := items[..k] + items[k + 1..];
            && |r| == |items| - 1
            && multiset(r) + multiset{items[k]} == multiset(items)
            && (forall j :: 0 <= j < k ==> r[j] == items[j])
            && (forall j :: k <= j < |r| ==> r[j] == items[j + 1])
  {
    var before, after := items[..k], items[k + 1..];
    assert items == before + [items[k]] + after;
  }

  /** `${filtered.length} of ${items.length} items`. */
  function CountText(shown: nat, total: nat): string {
    NatToString(shown) + " of " + NatToString(total) + " items"
  }

  class App {
    var els: Elements
    var items: seq<Item>
    var stored: Stored
    /** `_listeners`, in registration order. */
    var listeners: seq<Listener>
    var controls: Controls
    /** The cards in `#itemsList`. */
    var listed: seq<Item>
    /** The text of `#itemsCount`. */
    var countText: string
    var form: FormState

    /** What `renderItems` would list now. */
    function Shown(): seq<Item>
      reads this`items, this`els, this`controls
    {
      Listed(items, Query((SearchBox in els), controls.search), controls.filter,
             OrderOf((SortSelect in els), controls.sortBy))
    }

    /** The script's state before the first mount, with the page's elements and store. */
    constructor (dom: Elements, store: Stored, initial: Controls)
      ensures els == dom && stored == store && controls == initial
      ensures items == [] && listeners == []
      ensures listed == [] && countText == [] && form == FormState(Blank, [], [], "Add Item", false)
    {
      els := dom;
      items := [];
      stored := store;
      listeners := [];
      controls := initial;
      listed := [];
      countText := [];
      form := FormState(Blank, [], [], "Add Item", false);
    }

    /** `addListener(el, type, handler)`: nothing for a missing element, else one record. */
    method AddListener(l: Listener)
      modifies this`listeners
      ensures listeners == old(listeners) + Reg(els, l)
    {
      if Exists(els, l.target) {
        listeners := listeners + [l];
      }
    }

    /** `removeAllListeners()`: every record is detached from its element (a browser
        effect) and the registry is emptied. */
    method RemoveAllListeners()
      modifies this`listeners
      ensures listeners == []
    {
      listeners := [];
    }

    /** `unmountApp()`. */
    method Unmount()
      modifies this`listeners
      ensures listeners == []
    {
      RemoveAllListeners();
    }

    method SaveItems()
      modifies this`stored
      ensures stored == Saved(items)
    {
      stored := Saved(items);
    }

    /** `loadItems()`: reads the store, seeding and saving the demo items when it is empty,
        missing or unparsable. Afterwards the list is non-empty and matches the store. */
    method LoadItems(id1: string, id2: string)
      modifies this`items, this`stored
      ensures items == Loaded(old(stored), id1, id2)
      ensures stored == Saved(items)
    {
      items := if stored.Saved? then stored.items else [];
      if |items| == 0 {
        items := SeedItems(id1, id2);
        SaveItems();
      }
    }

    /** `renderItems()`. Without the status filter element it throws before changing
        anything; an empty result replaces the cards but leaves the count text. */
    method Render() returns (ok: bool)
      modifies this`listed, this`countText
      ensures ok == (FilterSelect in els)
      ensures listed == (if ok && (ItemsList in els) then Shown() else old(listed))
      ensures countText == (if ok && (ItemsCount in els) && Shown() != []
                            then CountText(|Shown()|, |items|) else old(countText))
    {
      if !(FilterSelect in els) {
        return false;
      }
      var shown := Shown();
      if (ItemsList in els) {
        listed := shown;
      }
      if shown != [] && (ItemsCount in els) {
        countText := CountText(|shown|, |items|);
      }
      ok := true;
    }

    /** Save, then render: the tail of every change to the list. */
    method SaveAndRender() returns (ok: bool)
      modifies this`stored, this`listed, this`countText
      ensures stored == Saved(items)
      ensures ok == (FilterSelect in els)
      ensures listed == (if ok && (ItemsList in els) then Shown() else old(listed))
      ensures countText == (if ok && (ItemsCount in els) && Shown() != []
                            then CountText(|Shown()|, |items|) else old(countText))
    {
      SaveItems();
      ok := Render();
    }

    /** `openAddForm()`: resets the inputs and leaves edit mode. `dataset.imageData` is not
        cleared. Without the form it throws at once. */
    method OpenAddForm() returns (ok: bool)
      modifies this`form
      ensures ok == (AddForm in els)
      ensures form == (if ok then AddMode(old(form), CancelEditButton in els) else old(form))
    {
      if !(AddForm in els) {
        return false;
      }
      form := form.(fields := Blank, editId := [], submitLabel := "Add Item");
      if (CancelEditButton in els) {
        form := form.(cancelShown := false);
      }
      ok := true;
    }

    /** `openEditForm(item)`: fills the inputs, keeps a data URL or database reference as
        image data (any other image goes to the URL input) and enters edit mode. */
    method OpenEditForm(item: Item)
      modifies this`form
      ensures !(AddForm in els) ==> form == old(form)
      ensures (AddForm in els) ==> form == EditMode(old(form), item, CancelEditButton in els)
    {
      if !(AddForm in els) {
        return;
      }
      var kept := IsDataUrl(item.image) || IsRef(item.image);
      form := form.(fields := Fields(item.name, item.desc, item.location, item.date, item.contact,
                                     if kept then [] else item.image),
                    imageData := if kept then item.image else []);
      form := form.(editId := item.id, submitLabel := "Save Changes");
      if (CancelEditButton in els) {
        form := form.(cancelShown := true);
      }
    }

    /** The clear button: `form.reset()` and `clearImagePreview()`. Edit mode stays. */
    method ClearForm()
      modifies this`form
      ensures form == (if (AddForm in els) then Cleared(old(form)) else old(form))
    {
      if (AddForm in els) {
        form := form.(fields := Blank, imageData := []);
      }
    }

    /** `addItemFromForm(e)`. An empty name changes nothing. Otherwise the list becomes
        `AfterSubmit`, edit mode ends, the list is saved and rendered, and when rendering
        does not throw the form is reset and its image data dropped. */
    method SubmitForm(freshId: string) returns (ok: bool)
      modifies this`items, this`stored, this`listed, this`countText, this`form
      ensures Trim(old(form).fields.name) == [] ==>
                !ok && items == old(items) && stored == old(stored) && listed == old(listed)
                && countText == old(countText) && form == old(form)
      ensures Trim(old(form).fields.name) != [] ==>
                && items == AfterSubmit(old(items), old(form), freshId)
                && stored == Saved(items)
                && ok == (FilterSelect in els)
                && listed == (if ok && (ItemsList in els) then Shown() else old(listed))
                && countText == (if ok && (ItemsCount in els) && Shown() != []
                                 then CountText(|Shown()|, |items|) else old(countText))
                && var left := EndEdit(old(form), CancelEditButton in els);
                   form == (if ok then Cleared(left) else left)
    {
      if Trim(form.fields.name) == [] {
        return false;
      }
      items := AfterSubmit(items, form, freshId);
      LeaveEditMode();
      ok := SaveAndRender();
      if ok {
        form := form.(fields := Blank, imageData := []);
      }
    }

    /** The edit-mode exit of `addItemFromForm`: drops `dataset.editId`, restores the label
        and hides the cancel button. */
    method LeaveEditMode()
      modifies this`form
      ensures form == EndEdit(old(form), CancelEditButton in els)
    {
      if form.editId != [] {
        form := form.(editId := [], submitLabel := "Add Item");
        if (CancelEditButton in els) {
          form := form.(cancelShown := false);
        }
      }
    }

    /** `window.findit.addItem(item)`: `None` for a name that trims to empty, with nothing
        changed. Otherwise the store is reloaded, the new item put first and saved; the call
        returns it unless rendering throws, which leaves the item saved. */
    method AddItem(d: Draft, freshId: string, id1: string, id2: string) returns (r: Option<Item>)
      modifies this`items, this`stored, this`listed, this`countText
      ensures Trim(d.name) == [] ==>
                r == None && items == old(items) && stored == old(stored)
                && listed == old(listed) && countText == old(countText)
      ensures Trim(d.name) != [] ==>
                && items == [FromDraft(d, freshId)] + Loaded(old(stored), id1, id2)
                && stored == Saved(items)
                && r == (if (FilterSelect in els) then Some(FromDraft(d, freshId)) else None)
                && listed == (if (FilterSelect in els) && (ItemsList in els) then Shown() else old(listed))
                && countText == (if (FilterSelect in els) && (ItemsCount in els) && Shown() != []
                                 then CountText(|Shown()|, |items|) else old(countText))
    {
      if Trim(d.name) == [] {
        return None;
      }
      var item := FromDraft(d, freshId);
      LoadItems(id1, id2);
      items := [item] + items;
      var ok := SaveAndRender();
      r := if ok then Some(item) else None;
    }

    /** The `toggle-status` card action. */
    method Toggle(id: string)
      modifies this`items, this`stored, this`listed, this`countText
      ensures items == AfterToggle(old(items), id)
      ensures FindIndex(old(items), id) < 0 ==>
                stored == old(stored) && listed == old(listed) && countText == old(countText)
      ensures FindIndex(old(items), id) >= 0 ==>
                && stored == Saved(items)
                && listed == (if (FilterSelect in els) && (ItemsList in els) then Shown() else old(listed))
                && countText == (if (FilterSelect in els) && (ItemsCount in els) && Shown() != []
                                 then CountText(|Shown()|, |items|) else old(countText))
    {
      var k := FindIndex(items, id);
      if k >= 0 {
        items := items[k := items[k].(status := Flip(items[k].status))];
        var _ := SaveAndRender();
      }
    }

    /** The `edit` card action. */
    method EditAction(id: string)
      modifies this`form
      ensures FindIndex(items, id) < 0 || !(AddForm in els) ==> form == old(form)
      ensures FindIndex(items, id) >= 0 && (AddForm in els) ==>
                form == EditMode(old(form), items[FindIndex(items, id)], CancelEditButton in els)
                && form.editId == id
    {
      var k := FindIndex(items, id);
      if k >= 0 {
        OpenEditForm(items[k]);
      }
    }

    /** The `delete` card action, after the `confirm` answer. */
    method Delete(id: string, confirmed: bool)
      modifies this`items, this`stored, this`listed, this`countText
      ensures items == (if confirmed then AfterDelete(old(items), id) else old(items))
      ensures !confirmed || FindIndex(old(items), id) < 0 ==>
                stored == old(stored) && listed == old(listed) && countText == old(countText)
      ensures confirmed && FindIndex(old(items), id) >= 0 ==>
                && stored == Saved(items)
                && listed == (if (FilterSelect in els) && (ItemsList in els) then Shown() else old(listed))
                && countText == (if (FilterSelect in els) && (ItemsCount in els) && Shown() != []
                                 then CountText(|Shown()|, |items|) else old(countText))
    {
      if !confirmed {
        return;
      }
      var k := FindIndex(items, id);
      if k >= 0 {
        items := items[..k] + items[k + 1..];
        var _ := SaveAndRender();
      }
    }

    /** The file input's change handler, with the outcome of storing the blob (`None` when
        the database rejects it) and the data URL the reader produces. */
    method ChooseFile(file: Option<FileInfo>, dbAvailable: bool, storedKey: Option<string>,
                      dataUrl: string) returns (u: Upload)
      modifies this`form
      ensures u == ClassifyUpload(file, dbAvailable)
      ensures (AddForm in els) && u == ByReference && storedKey.Some? ==>
                form == old(form).(imageData := ImageRef(storedKey.value),
                                   fields := old(form).fields.(imageUrl := []))
      ensures (AddForm in els) && u == Inline ==>
                form == old(form).(imageData := dataUrl, fields := old(form).fields.(imageUrl := []))
      ensures !(AddForm in els) || u in {NoFile, TooLarge, NotAnImage} || (u == ByReference && storedKey.None?) ==>
                form == old(form)
    {
      u := ClassifyUpload(file, dbAvailable);
      if !(AddForm in els) {
        return;
      }
      if u == ByReference && storedKey.Some? {
        form := form.(imageData := ImageRef(storedKey.value), fields := form.fields.(imageUrl := []));
      } else if u == Inline {
        form := form.(imageData := dataUrl, fields := form.fields.(imageUrl := []));
      }
    }

    /** `keydownHandler(e)`: Escape opens the add form; the other keys only move focus. */
    method OnKeydown(key: string)
      modifies this`form
      ensures key == "Escape" && (AddForm in els) ==> form == AddMode(old(form), CancelEditButton in els)
      ensures key != "Escape" || !(AddForm in els) ==> form == old(form)
    {
      if key == "Escape" {
        var _ := OpenAddForm();
      }
    }

    /** `mountApp()`: takes the new page's elements, clears the registry and registers
        afresh, loads and renders the items, then applies `#add` and the profile contact.
        `threw` says that it stopped at a missing element. */
    method Mount(dom: Elements, hash: string, profileContact: string, id1: string, id2: string)
      returns (threw: bool)
      modifies this`els, this`listeners, this`items, this`stored, this`listed,
               this`countText, this`form
      ensures els == dom
      ensures listeners == MountListeners(dom)
      ensures items == Loaded(old(stored), id1, id2) && stored == Saved(items)
      ensures threw <==> !(FilterSelect in dom) || (hash == "#add" && !(AddForm in dom))
      ensures listed == (if (FilterSelect in dom) && (ItemsList in dom) then Shown() else old(listed))
      ensures countText == (if (FilterSelect in dom) && (ItemsCount in dom) && Shown() != []
                            then CountText(|Shown()|, |items|) else old(countText))
      ensures form == Opened(old(form), dom, hash, profileContact)
    {
      els := dom;
      Register();
      threw := Start(hash, profileContact, id1, id2);
    }

    /** The part of `mountApp` after the registrations: `loadItems()`, `renderItems()`,
        the `#add` hash and the profile contact. */
    method Start(hash: string, profileContact: string, id1: string, id2: string) returns (threw: bool)
      modifies this`items, this`stored, this`listed, this`countText, this`form
      ensures items == Loaded(old(stored), id1, id2) && stored == Saved(items)
      ensures threw <==> !(FilterSelect in els) || (hash == "#add" && !(AddForm in els))
      ensures listed == (if (FilterSelect in els) && (ItemsList in els) then Shown() else old(listed))
      ensures countText == (if (FilterSelect in els) && (ItemsCount in els) && Shown() != []
                            then CountText(|Shown()|, |items|) else old(countText))
      ensures form == Opened(old(form), els, hash, profileContact)
    {
      LoadItems(id1, id2);
      var ok := Render();
      if !ok {
        return true;
      }
      threw := Prefill(hash, profileContact);
    }

    /** The `#add` hash opens the add form, which throws without the form; then a non-empty
        profile contact fills the contact input. */
    method Prefill(hash: string, profileContact: string) returns (threw: bool)
      modifies this`form
      ensures threw <==> hash == "#add" && !(AddForm in els)
      ensures form == Prefilled(old(form), els, hash, profileContact)
    {
      if hash == "#add" {
        var ok := OpenAddForm();
        if !ok {
          return true;
        }
      }
      if profileContact != [] && (AddForm in els) {
        form := form.(fields := form.fields.(contact := profileContact));
      }
      threw := false;
    }

    /** The registry part of `mountApp`: `removeAllListeners()`, then the ten
        `addListener` calls in order. */
    method Register()
      modifies this`listeners
      ensures listeners == MountListeners(els)
    {
      RemoveAllListeners();
      RegisterControls();
      RegisterList();
      AppendEmpty(Registered(els, ControlTable));
      RegisteredAppend(els, ControlTable, ListTable);
    }

    /** The first five `addListener` calls of `mountApp`. */
    method RegisterControls()
      modifies this`listeners
      ensures listeners == old(listeners) + Registered(els, ControlTable)
    {
      AddListener(Listener(AddForm, Submit));
      AddListener(Listener(ClearButton, Click));
      AddListener(Listener(ImageUrlInput, Input));
      AddListener(Listener(SearchBox, Input));
      AddListener(Listener(FilterSelect, Change));
      AppendFive(old(listeners), Reg(els, ControlTable[0]), Reg(els, ControlTable[1]),
                 Reg(els, ControlTable[2]), Reg(els, ControlTable[3]), Reg(els, ControlTable[4]));
      RegisteredFive(els, ControlTable);
    }

    /** The last five `addListener` calls of `mountApp`. */
    method RegisterList()
      modifies this`listeners
      ensures listeners == old(listeners) + Registered(els, ListTable)
    {
      AddListener(Listener(SortSelect, Change));
      AddListener(Listener(ItemsList, Click));
      AddListener(Listener(FileInput, Change));
      AddListener(Listener(CancelEditButton, Click));
      AddListener(Listener(Document, Keydown));
      AppendFive(old(listeners), Reg(els, ListTable[0]), Reg(els, ListTable[1]),
                 Reg(els, ListTable[2]), Reg(els, ListTable[3]), Reg(els, ListTable[4]));
      RegisteredFive(els, ListTable);
    }

    /** Mounting twice without an unmount leaves the listeners of one mount. */
    method MountTwice(dom: Elements, hash: string, profileContact: string, id1: string, id2: string)
      modifies this`els, this`listeners, this`items, this`stored, this`listed,
               this`countText, this`form
      ensures listeners == MountListeners(dom)
    {
      var _ := Mount(dom, hash, profileContact, id1, id2);
      var _ := Mount(dom, hash, profileContact, id1, id2);
    }

    /** Cancelling an edit of an item with an inlined image keeps that image as the form's
        image data, so the next new item takes it. */
    method CancelEditKeepsImage(item: Item, name: string, freshId: string)
      requires IsDataUrl(item.image) && Trim(name) != []
      modifies this`items, this`stored, this`listed, this`countText, this`form
      ensures (AddForm in els) ==> items == [Item(freshId, Trim(name), "", "", "", "", item.image, Lost)] + old(items)
    {
      OpenEditForm(item);
      var _ := OpenAddForm();
      if (AddForm in els) {
        form := form.(fields := form.fields.(name := name));
        var _ := SubmitForm(freshId);
      }
    }
  }
}
