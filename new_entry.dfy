/**
  The entry editor of `components/NewEntryView.tsx`: the form's state, the
  "dreamscape" image request with its empty-content guard, the choice of the
  first answer part that carries inline data, the data URL made from it, and
  the payload handed to `onSave`. The image request is an input: its parts,
  or its failure.
*/
module NewEntry {
  import opened Common
  import opened Types
  import App

  const DataUrlPrefix := "data:image/png;base64,"
  const InitialImage := "https://lh3.googleusercontent.com/aida-public/AB6AXuCc29AJC5BvUzDXX-y2jPhh3lNx6wYTJpQyrDJ1FiBehkrRfD5ef2jxTOfKt1y-VB66xqiIEh9cg9r3iuVz7Q--SrtoeH-NyHCRhWQigubIl_Cyb0RLdAN8GtT9GfnjDydBDLQNh6xZpBwpNmt3IMeIsEUUNSJJLniEC2qiEKQrUfhmrpil1oTbTFnTkbOxoLC-kUIMcoBXT9fPeY2yPp5FVB3bMccsqKwWpXUQJhIOYPrS0w2w3HiPtjn_sqhtUB1IISHWQ_bUxz1S"

  /** A part's `inlineData`; its `data` may itself be missing. */
  datatype InlineData = InlineData(data: Option<string>)

  datatype Part = Part(inlineData: Option<InlineData>)

  /** The answer to the image request: its first candidate's parts, or a throw. */
  datatype ImageReply = ImageFailed | ImageParts(parts: seq<Part>)

  /** `${base64Data}`: a missing value is interpolated as `undefined`. */
  function Interpolated(v: Option<string>): string {
    if v.Some? then v.value else "undefined"
  }

  /** The data URL of an inline part. */
  function DataUrl(d: InlineData): (r: string)
    ensures |r| == |DataUrlPrefix| + |Interpolated(d.data)|
    ensures r[..|DataUrlPrefix|] == DataUrlPrefix && r[|DataUrlPrefix|..] == Interpolated(d.data)
  {
    DataUrlPrefix + Interpolated(d.data)
  }

  /** The index of the first part with inline data. */
  function FirstInline(parts: seq<Part>): (r: Option<nat>)
    ensures r.Some? ==> r.value < |parts| && parts[r.value].inlineData.Some?
    ensures r.Some? ==> forall k :: 0 <= k < r.value ==> parts[k].inlineData.None?
    ensures r.None? ==> forall k :: 0 <= k < |parts| ==> parts[k].inlineData.None?
  {
    if parts == [] then None
    else if parts[0].inlineData.Some? then Some(0)
    else match FirstInline(parts[1..])
      case None => None
      case Some(k) => Some(k + 1)
  }

  /** The image after the loop over `parts`: the first inline part's data URL, else `image`. */
  function ChosenImage(parts: seq<Part>, image: string): string {
    match FirstInline(parts)
    case None => image
    case Some(k) => DataUrl(parts[k].inlineData.value)
  }

  /** Parts after the first inline one play no part. */
  lemma ChosenImageIgnoresLater(parts: seq<Part>, later: seq<Part>, image: string)
    requires FirstInline(parts).Some?
    ensures ChosenImage(parts + later, image) == ChosenImage(parts, image)
  {
    var k := FirstInline(parts).value;
    var all := parts + later;
    assert all[k] == parts[k];
    assert forall j :: 0 <= j < k ==> all[j] == parts[j];
    FirstInlineUnique(all, k);
  }

  /** The first inline index is determined by where inline data first appears. */
  lemma {:induction false} FirstInlineUnique(parts: seq<Part>, k: nat)
    requires k < |parts| && parts[k].inlineData.Some?
    requires forall j :: 0 <= j < k ==> parts[j].inlineData.None?
    ensures FirstInline(parts) == Some(k)
  {
    if k > 0 {
      FirstInlineUnique(parts[1..], k - 1);
    }
  }

  /** `for (const part of parts) { if (part.inlineData) { setImage(...); break; } }`. */
  method SelectImage(parts: seq<Part>, image: string) returns (chosen: string)
    ensures chosen == ChosenImage(parts, image)
  {
    chosen := image;
    var i := 0;
    while i < |parts|
      invariant 0 <= i <= |parts|
      invariant forall k :: 0 <= k < i ==> parts[k].inlineData.None?
      invariant chosen == image
    {
      if parts[i].inlineData.Some? {
        chosen := DataUrl(parts[i].inlineData.value);
        FirstInlineUnique(parts, i);
        return;
      }
      i := i + 1;
    }
  }

  /** The editor's state. */
  datatype EntryForm = EntryForm(
    selectedMood: Mood,
    content: string,
    title: string,
    image: string,
    isGeneratingImage: bool)

  const InitialForm := EntryForm(Happy, "", "", InitialImage, false)

  /** What is in the editor but not the generation flag. */
  predicate SameEntry(a: EntryForm, b: EntryForm) {
    a.selectedMood == b.selectedMood && a.content == b.content && a.title == b.title && a.image == b.image
  }

  /** `generateDreamscape`, up to the request: without content it only alerts, and sends nothing. */
  function BeginDreamscape(f: EntryForm): (r: (EntryForm, bool))
    ensures r.1 <==> f.content != ""
    ensures !r.1 ==> r.0 == f
    ensures r.1 ==> r.0.isGeneratingImage && SameEntry(r.0, f)
  {
    if f.content == "" then (f, false) else (f.(isGeneratingImage := true), true)
  }

  /** The request settles: the image becomes the chosen one, or stays on failure, and `finally`
      lowers the flag. */
  method FinishDreamscape(f: EntryForm, reply: ImageReply) returns (r: EntryForm)
    ensures !r.isGeneratingImage
    ensures r.selectedMood == f.selectedMood && r.content == f.content && r.title == f.title
    ensures reply.ImageFailed? ==> r.image == f.image
    ensures reply.ImageParts? ==> r.image == ChosenImage(reply.parts, f.image)
  {
    var image := f.image;
    if reply.ImageParts? {
      image := SelectImage(reply.parts, f.image);
    }
    r := f.(image := image, isGeneratingImage := false);
  }

  /** The form's image is never empty: it starts as an address and only becomes a data URL. */
  lemma ChosenImageNonEmpty(parts: seq<Part>, image: string)
    requires image != ""
    ensures ChosenImage(parts, image) != ""
  {
    if FirstInline(parts).Some? {
      assert |DataUrl(parts[FirstInline(parts).value].inlineData.value)| >= |DataUrlPrefix|;
    }
  }

  /** `onSave({ title, content, mood: selectedMood, imageUrl: image })`. */
  function SavePayload(f: EntryForm): (d: App.Draft)
    ensures d.title == Some(f.title) && d.content == Some(f.content)
    ensures d.mood == Some(f.selectedMood) && d.imageUrl == Some(f.image)
  {
    App.Draft(Some(f.title), Some(f.content), Some(f.image), Some(f.selectedMood))
  }

  /** Saved from the editor, a memory keeps the content, mood and image as they were, and the
      title unless it was left empty. */
  lemma SavedFromEditor(f: EntryForm, id: string, time: string)
    requires f.image != ""
    ensures var m := App.MemoryOf(SavePayload(f), id, time);
      m.content == f.content && m.mood == Some(f.selectedMood) && m.imageUrl == f.image &&
      m.title == (if f.title == "" then App.UntitledTitle else f.title)
  {
  }
}
