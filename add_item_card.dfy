/**
 * src/view/src/components/AddItemCard.tsx: the label-to-category table, the copy
 * of the picked file list, and the `submit` handler that validates the form,
 * calls `onCreate` with a normalised payload and resets the form on success.
 */
module AddItem {
  import opened Wrappers
  import opened JsText
  import opened Forms

  /** The category union of the `onCreate` payload. */
  datatype Category = Clothing | Electronics | Furniture | Books | Labor | Tools | Experience | Other

  /** A picked image file; the model only copies and passes these along. */
  type File

  datatype LabelEntry = LabelEntry(text: string, category: Category)

  /** `CATEGORY_LABELS`: the friendly labels shown in the picker, in order, with their enum values. */
  const CategoryLabels: seq<LabelEntry> := [
    LabelEntry("Clothing & Apparel", Clothing),
    LabelEntry("Electronics", Electronics),
    LabelEntry("Furniture", Furniture),
    LabelEntry("Books & Media", Books),
    LabelEntry("Labor / Services", Labor),
    LabelEntry("Tools", Tools),
    LabelEntry("Experiences", Experience),
    LabelEntry("Other", Other)
  ]

  const DefaultLabel := "Other"

  /** `table.find(c => c.label === selected)?.enum`. */
  function FindLabel(table: seq<LabelEntry>, selected: string): Option<Category> {
    if table == [] then None
    else if table[0].text == selected then Some(table[0].category)
    else FindLabel(table[1..], selected)
  }

  /** `find` fails exactly when no row has the label, and otherwise returns the enum of the
      first row that has it. */
  lemma {:induction false} FindLabelFirstMatch(table: seq<LabelEntry>, selected: string)
    ensures var r := FindLabel(table, selected);
      && (r.None? <==> forall i | 0 <= i < |table| :: table[i].text != selected)
      && (r.Some? ==> exists i | 0 <= i < |table| ::
            table[i].text == selected && table[i].category == r.value && forall j | 0 <= j < i :: table[j].text != selected)
  {
    if table != [] && table[0].text != selected {
      FindLabelFirstMatch(table[1..], selected);
      var r := FindLabel(table, selected);
      assert forall i | 1 <= i < |table| :: table[i] == table[1..][i - 1];
      if r.Some? {
        var i :| 0 <= i < |table[1..]| && table[1..][i].text == selected && table[1..][i].category == r.value
          && forall j | 0 <= j < i :: table[1..][j].text != selected;
        assert table[i + 1].text == selected && table[i + 1].category == r.value;
        assert forall j | 0 <= j < i + 1 :: table[j].text != selected;
      }
    } else if table != [] {
      assert table[0].text == selected;
    }
  }

  /** `categoryEnum`: the enum of the selected label, `'Other'` when the label is not in the table. */
  function CategoryOf(selected: string): Category {
    match FindLabel(CategoryLabels, selected)
    case Some(c) => c
    case None => Other
  }

  /** No two rows of the table share a label or an enum value. */
  lemma CategoryLabelsDistinct()
    ensures forall i, j | 0 <= i < j < |CategoryLabels| ::
      CategoryLabels[i].text != CategoryLabels[j].text && CategoryLabels[i].category != CategoryLabels[j].category
  {
    var t := CategoryLabels;
    forall i, j | 0 <= i < j < |t| ensures t[i].text != t[j].text {
      var a, b := t[i].text, t[j].text;
      if |a| == |b| {
        // labels of equal length (Electronics/Experiences, Tools/Other) differ in one of their first two characters
        assert a[0] != b[0] || a[1] != b[1];
      }
    }
  }

  /** Each label maps to the enum value paired with it. */
  lemma CategoryOfTable(i: int)
    requires 0 <= i < |CategoryLabels|
    ensures CategoryOf(CategoryLabels[i].text) == CategoryLabels[i].category
  {
    CategoryLabelsDistinct();
    var selected := CategoryLabels[i].text;
    FindLabelFirstMatch(CategoryLabels, selected);
    var r := FindLabel(CategoryLabels, selected);
    var k :| 0 <= k < |CategoryLabels| && CategoryLabels[k].text == selected && CategoryLabels[k].category == r.value
      && forall j | 0 <= j < k :: CategoryLabels[j].text != selected;
    assert k == i;
  }

  /** A label that is not in the table maps to `Other`. */
  lemma CategoryOfUnknown(selected: string)
    requires forall i | 0 <= i < |CategoryLabels| :: CategoryLabels[i].text != selected
    ensures CategoryOf(selected) == Other
  {
    FindLabelFirstMatch(CategoryLabels, selected);
  }

  /** Every category of the union is the image of some label, so the mapping over the table
      is a bijection onto the union. */
  lemma CategoryLabelsCover(c: Category)
    ensures exists i | 0 <= i < |CategoryLabels| :: CategoryLabels[i].category == c && CategoryOf(CategoryLabels[i].text) == c
  {
    var i := match c
      case Clothing => 0 case Electronics => 1 case Furniture => 2 case Books => 3
      case Labor => 4 case Tools => 5 case Experience => 6 case Other => 7;
    CategoryOfTable(i);
  }

  /** The argument of `onCreate`; `description` None is `undefined`. */
  datatype ItemPayload = ItemPayload(ownerId: string, name: string, description: Option<string>, category: Category, images: seq<File>)

  const NameMissingMessage := "Please enter a name."
  const ImagesMissingMessage := "Please add at least one image."

  /** The checks and payload of `submit`, as written. */
  function SubmitItem(ownerId: string, name: string, desc: string, catLabel: string, files: seq<File>): SubmitResult<ItemPayload> {
    if Trim(name) == "" then Error(NameMissingMessage)
    else if |files| == 0 then Error(ImagesMissingMessage)
    else
      var d := Trim(desc);
      Submit(ItemPayload(ownerId, Trim(name), if d == "" then None else Some(d), CategoryOf(catLabel), files))
  }

  /** A blank name is reported first; with a name, a missing image is reported; otherwise
      `onCreate` is called. */
  lemma SubmitItemChecks(ownerId: string, name: string, desc: string, catLabel: string, files: seq<File>)
    ensures var r := SubmitItem(ownerId, name, desc, catLabel, files);
      && (IsBlank(name) ==> r == Error(NameMissingMessage))
      && (!IsBlank(name) && files == [] ==> r == Error(ImagesMissingMessage))
      && (r.Submit? <==> !IsBlank(name) && files != [])
  {
    TrimEmptyIffBlank(name);
  }

  /** The payload carries the owner, the trimmed name (never empty and with no white space at its
      ends), the trimmed description or nothing when that is empty, the mapped category and the
      same files in the same order. */
  lemma ItemPayloadNormalised(ownerId: string, name: string, desc: string, catLabel: string, files: seq<File>)
    requires SubmitItem(ownerId, name, desc, catLabel, files).Submit?
    ensures var p := SubmitItem(ownerId, name, desc, catLabel, files).payload;
      && p.ownerId == ownerId && p.images == files && p.category == CategoryOf(catLabel)
      && p.name == Trim(name) && p.name != [] && Trim(p.name) == p.name && !IsTrimmable(p.name[0]) && !IsTrimmable(p.name[|p.name| - 1])
      && (p.description.None? <==> IsBlank(desc))
      && (p.description.Some? ==> p.description.value == Trim(desc) && p.description.value != [] && Trim(p.description.value) == p.description.value)
  {
    var n, d := Trim(name), Trim(desc);
    assert n != [];
    assert SubmitItem(ownerId, name, desc, catLabel, files).payload
        == ItemPayload(ownerId, n, if d == "" then None else Some(d), CategoryOf(catLabel), files);
    TrimEmptyIffBlank(desc);
    TrimIsSlice(name);
    TrimIdempotent(name);
    TrimIdempotent(desc);
  }

  /** Normalising is idempotent: submitting a payload's own fields again yields the same payload. */
  lemma ResubmitSamePayload(ownerId: string, name: string, desc: string, catLabel: string, files: seq<File>)
    requires SubmitItem(ownerId, name, desc, catLabel, files).Submit?
    ensures var p := SubmitItem(ownerId, name, desc, catLabel, files).payload;
      SubmitItem(p.ownerId, p.name, match p.description case Some(d) => d case None => "", catLabel, p.images) == Submit(p)
  {
    ItemPayloadNormalised(ownerId, name, desc, catLabel, files);
    var p := SubmitItem(ownerId, name, desc, catLabel, files).payload;
    TrimEmptyIffBlank(p.name);
    if p.description.None? {
      assert Trim("") == "";
    }
  }

  /** The loop of `onFilesChangedWeb`: push every file of the picked list into a new array. */
  method CopyFileList(list: seq<File>) returns (next: seq<File>)
    ensures next == list
  {
    next := [];
    var i := 0;
    while i < |list|
      invariant 0 <= i <= |list|
      invariant next == list[..i]
    {
      next := next + [list[i]];
      i := i + 1;
    }
  }

  /** The add-item card's state: the form fields, the error it shows, and the calls made to
      `onCreate` and `onClose`. */
  class AddItemCard {
    const ownerId: string
    var name: string
    var desc: string
    var catLabel: string
    var files: seq<File>
    var error: Option<string>
    var created: seq<ItemPayload>
    var closes: nat

    constructor (ownerId: string)
      ensures this.ownerId == ownerId
      ensures name == "" && desc == "" && catLabel == DefaultLabel && files == []
      ensures error == None && created == [] && closes == 0
    {
      this.ownerId := ownerId;
      name, desc, catLabel, files := "", "", DefaultLabel, [];
      error := None;
      created := [];
      closes := 0;
    }

    /** `onFilesChangedWeb`: a null list changes nothing, otherwise the files become a copy of it. */
    method OnFilesChangedWeb(list: Option<seq<File>>)
      modifies this`files
      ensures files == if list.Some? then list.value else old(files)
    {
      if list.Some? {
        var next := CopyFileList(list.value);
        files := next;
      }
    }

    /** `submit`. `thrown` is what awaiting `onCreate` does: None when it resolves, Some(message)
        when it throws (the message of the Error, or the thrown value as a string). */
    method Submit(thrown: Option<string>)
      modifies this`name, this`desc, this`catLabel, this`files, this`error, this`created, this`closes
      ensures var r := SubmitItem(ownerId, old(name), old(desc), old(catLabel), old(files));
        && created == old(created) + Handed(r)
        && (r.Error? ==> error == Some(r.message) && name == old(name) && desc == old(desc)
                         && catLabel == old(catLabel) && files == old(files) && closes == old(closes))
        && (r.Submit? && thrown.None? ==>
              error == None && name == "" && desc == "" && catLabel == DefaultLabel && files == [] && closes == old(closes) + 1)
        && (r.Submit? && thrown.Some? ==>
              error == thrown && name == old(name) && desc == old(desc) && catLabel == old(catLabel) && files == old(files)
              && closes == old(closes))
    {
      error := None;
      var r := SubmitItem(ownerId, name, desc, catLabel, files);
      if r.Error? {
        error := Some(r.message);
        return;
      }
      created := created + [r.payload];
      if thrown.Some? {
        error := thrown;
      } else {
        name, desc, catLabel, files := "", "", DefaultLabel, [];
        closes := closes + 1;
      }
    }
  }
}
