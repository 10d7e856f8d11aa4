/** The image picker of the face-swap form (components/face-swap/image-upload.tsx): a
    chosen file is checked against the accepted MIME types and the size cap before it
    is handed to the form, and the component shows the reason when it is not. */
module ImageUpload {
  import opened Common

  /** The parts of a browser `File` the checks read; `size` is in bytes. */
  datatype File = File(name: string, mimeType: string, size: nat)

  const DefaultMaxSizeMb: nat := 5
  const DefaultAcceptedTypes: seq<string> := ["image/jpeg", "image/png", "image/webp"]
  const BytesPerMb: nat := 1024 * 1024

  /** The outcome of `validateFile`: no message, a message, or the `TypeError` thrown
      while building the format message when an accepted type has no `/` (its
      `split('/')[1]` is `undefined`). */
  datatype Check = Accepted | Rejected(message: string) | Throws

  /** The position of the first `c` in `s`, or `|s|` when there is none. */
  function IndexOf(s: string, c: char): (i: nat)
    ensures i <= |s|
    ensures i < |s| ==> s[i] == c
    ensures forall j :: 0 <= j < i ==> s[j] != c
  {
    if s == [] then 0 else if s[0] == c then 0 else 1 + IndexOf(s[1..], c)
  }

  /** `s.split('/')[1]`: the text between the first and the second `/`. */
  function SecondSegment(s: string): (r: Option<string>)
    ensures r.None? <==> '/' !in s
    ensures r.Some? ==> '/' !in r.value
  {
    var i := IndexOf(s, '/');
    if i == |s| then None
    else
      var rest := s[i + 1..];
      var seg := rest[..IndexOf(rest, '/')];
      assert forall j :: 0 <= j < |seg| ==> seg[j] == rest[j];
      Some(seg)
  }

  /** Each accepted type's subtype, uppercased; `None` when one has no subtype. */
  function SubtypeLabels(types: seq<string>): (r: Option<seq<string>>)
    ensures r.Some? <==> forall i :: 0 <= i < |types| ==> '/' in types[i]
    ensures r.Some? ==> |r.value| == |types|
    ensures r.Some? ==> forall i :: 0 <= i < |types| ==> r.value[i] == UpperAscii(SecondSegment(types[i]).value)
  {
    if types == [] then Some([])
    else
      var head := SecondSegment(types[0]);
      var tail := SubtypeLabels(types[1..]);
      assert forall i :: 1 <= i < |types| ==> types[1..][i - 1] == types[i];
      if head.None? || tail.None? then None
      else Some([UpperAscii(head.value)] + tail.value)
  }

  /** `請上傳支援的圖片格式：` followed by the labels joined with `, `. */
  function FormatMessage(types: seq<string>): Option<string>
  {
    var labels := SubtypeLabels(types);
    if labels.None? then None else Some("請上傳支援的圖片格式：" + Join(labels.value, ", "))
  }

  function SizeMessage(maxSizeMb: nat): string
  {
    "圖片大小不能超過 " + DecimalString(maxSizeMb) + "MB"
  }

  /** `validateFile`: the type is checked first, then the size against
      `maxSize * 1024 * 1024` with a strict `>`. */
  function ValidateFile(file: File, maxSizeMb: nat, acceptedTypes: seq<string>): (c: Check)
    ensures c == Accepted <==> file.mimeType in acceptedTypes && file.size <= maxSizeMb * BytesPerMb
    ensures c.Rejected? ==> |c.message| > 0
    ensures file.mimeType !in acceptedTypes ==>
      c == if FormatMessage(acceptedTypes).None? then Throws else Rejected(FormatMessage(acceptedTypes).value)
    ensures file.mimeType in acceptedTypes && file.size > maxSizeMb * BytesPerMb ==>
      c == Rejected(SizeMessage(maxSizeMb))
  {
    if file.mimeType !in acceptedTypes then
      var m := FormatMessage(acceptedTypes);
      if m.None? then Throws else Rejected(m.value)
    else if file.size > maxSizeMb * BytesPerMb then Rejected(SizeMessage(maxSizeMb))
    else Accepted
  }

  /** A file of exactly the cap is accepted: the comparison is strict. */
  lemma ExactCapAccepted(name: string, mimeType: string, maxSizeMb: nat, acceptedTypes: seq<string>)
    requires mimeType in acceptedTypes
    ensures ValidateFile(File(name, mimeType, maxSizeMb * BytesPerMb), maxSizeMb, acceptedTypes) == Accepted
    ensures ValidateFile(File(name, mimeType, maxSizeMb * BytesPerMb + 1), maxSizeMb, acceptedTypes)
         == Rejected(SizeMessage(maxSizeMb))
  {
  }

  /** The type is checked before the size: a file of a refused type reports the
      format message even when it is also too large, and that message is never the
      size message. */
  lemma TypeCheckedBeforeSize(file: File, maxSizeMb: nat, acceptedTypes: seq<string>)
    requires file.mimeType !in acceptedTypes
    requires forall i :: 0 <= i < |acceptedTypes| ==> '/' in acceptedTypes[i]
    ensures ValidateFile(file, maxSizeMb, acceptedTypes).Rejected?
    ensures ValidateFile(file, maxSizeMb, acceptedTypes).message != SizeMessage(maxSizeMb)
  {
    var m := FormatMessage(acceptedTypes).value;
    assert m[0] == '請' && SizeMessage(maxSizeMb)[0] == '圖';
  }

  /** The component's state: the message it shows, and the calls it has made to the
      form's `onImageChange` callback, oldest first (`None` is a call with `null`). */
  class Picker {
    const maxSizeMb: nat
    const acceptedTypes: seq<string>
    var error: Option<string>
    var changes: seq<Option<File>>

    constructor (maxSizeMb: nat, acceptedTypes: seq<string>)
      ensures this.maxSizeMb == maxSizeMb && this.acceptedTypes == acceptedTypes
      ensures error.None? && changes == []
    {
      this.maxSizeMb := maxSizeMb;
      this.acceptedTypes := acceptedTypes;
      error := None;
      changes := [];
    }

    /** `handleFileSelect`: a refused file only shows its message; an accepted one
        clears the message and is passed on once. A throwing check leaves everything
        as it was. */
    method HandleFileSelect(file: File)
      modifies this
      ensures var c := ValidateFile(file, maxSizeMb, acceptedTypes);
        && (c.Rejected? ==> error == Some(c.message) && changes == old(changes))
        && (c == Accepted ==> error.None? && changes == old(changes) + [Some(file)])
        && (c == Throws ==> error == old(error) && changes == old(changes))
    {
      var validationError := ValidateFile(file, maxSizeMb, acceptedTypes);
      if validationError.Throws? {
        return;
      }
      if validationError.Rejected? {
        error := Some(validationError.message);
        return;
      }
      error := None;
      changes := changes + [Some(file)];
    }

    /** `handleRemove`: tells the form the image is gone and clears the message. */
    method HandleRemove()
      modifies this
      ensures changes == old(changes) + [None] && error.None?
    {
      changes := changes + [None];
      error := None;
    }
  }
}
