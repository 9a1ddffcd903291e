/**
 * The Note record type, the one mergeable model: a required, trimmed title of at most
 * 200 characters, content defaulting to the empty string, and the base fields.
 */
module NoteModel {
  import opened Common
  import opened BaseSchema

  const TITLE := "title"
  const CONTENT := "content"
  const TITLE_REQUIRED := "Title is required"
  const TITLE_TOO_LONG := "Title must be under 200 characters"
  const TITLE_MAX_LENGTH := 200

  /** The fields given to `Note.create`, each possibly missing. */
  datatype NoteInput = NoteInput(ownerId: Option<string>, title: Option<string>, content: Option<string>, isArchived: Option<bool>)

  /** The characters `String.prototype.trim` removes: white space and line terminators. */
  predicate IsTrimmable(c: char)
  {
    c == '\t' || c == '\n' || c == '\U{000B}' || c == '\U{000C}' || c == '\r' || c == ' '
    || c == '\U{00A0}' || c == '\U{1680}' || ('\U{2000}' <= c <= '\U{200A}')
    || c == '\U{2028}' || c == '\U{2029}' || c == '\U{202F}' || c == '\U{205F}'
    || c == '\U{3000}' || c == '\U{FEFF}'
  }

  /** The string without its leading trimmable characters. */
  function TrimStart(s: string): (r: string)
    ensures |r| <= |s| && r == s[|s| - |r|..]
    ensures r == [] || !IsTrimmable(r[0])
    decreases |s|
  {
    if s != [] && IsTrimmable(s[0]) then TrimStart(s[1..]) else s
  }

  /** The string without its trailing trimmable characters. */
  function TrimEnd(s: string): (r: string)
    ensures |r| <= |s| && r == s[..|r|]
    ensures r == [] || !IsTrimmable(r[|r| - 1])
    decreases |s|
  {
    if s != [] && IsTrimmable(s[|s| - 1]) then TrimEnd(s[..|s| - 1]) else s
  }

  /** `s.trim()`. */
  function Trim(s: string): string
  {
    TrimEnd(TrimStart(s))
  }

  /** Trimming the start removes trimmable characters only. */
  lemma {:induction false} TrimStartRemovesOnlyTrimmable(s: string)
    ensures forall i :: 0 <= i < |s| - |TrimStart(s)| ==> IsTrimmable(s[i])
    decreases |s|
  {
    if s != [] && IsTrimmable(s[0]) {
      TrimStartRemovesOnlyTrimmable(s[1..]);
      assert forall i :: 1 <= i < |s| ==> s[1..][i - 1] == s[i];
    }
  }

  /** Trimming the end removes trimmable characters only. */
  lemma {:induction false} TrimEndRemovesOnlyTrimmable(s: string)
    ensures forall i :: |TrimEnd(s)| <= i < |s| ==> IsTrimmable(s[i])
    decreases |s|
  {
    if s != [] && IsTrimmable(s[|s| - 1]) {
      TrimEndRemovesOnlyTrimmable(s[..|s| - 1]);
    }
  }

  /** A string that neither starts nor ends with a trimmable character. */
  predicate Unpadded(s: string)
  {
    s == [] || (!IsTrimmable(s[0]) && !IsTrimmable(s[|s| - 1]))
  }

  /** Trimming leaves a contiguous part of the input with no padding, having removed only trimmable characters. */
  lemma TrimShape(s: string)
    ensures Unpadded(Trim(s))
    ensures |s| - |TrimStart(s)| + |Trim(s)| <= |s|
    ensures Trim(s) == s[|s| - |TrimStart(s)|..|s| - |TrimStart(s)| + |Trim(s)|]
  {
    var a := TrimStart(s);
    var r := TrimEnd(a);
    var k := |s| - |a|;
    assert a == s[k..];
    assert r == a[..|r|];
    if r != [] {
      assert r[0] == a[0];
    }
    assert s[k..][..|r|] == s[k..k + |r|];
  }

  /** A string without padding is left as it is. */
  lemma TrimUnpadded(s: string)
    requires Unpadded(s)
    ensures Trim(s) == s
  {
  }

  /** Trimming is idempotent. */
  lemma TrimIdempotent(s: string)
    ensures Trim(Trim(s)) == Trim(s)
  {
    TrimShape(s);
    TrimUnpadded(Trim(s));
  }

  /** A string of trimmable characters only trims to the empty string. */
  lemma {:induction false} TrimAllTrimmable(s: string)
    requires forall i :: 0 <= i < |s| ==> IsTrimmable(s[i])
    ensures Trim(s) == ""
    decreases |s|
  {
    if s != [] {
      TrimAllTrimmable(s[1..]);
    }
  }

  /** The validators on the (already trimmed) title: `required` first, then `maxlength`. */
  function TitleErrors(title: Option<string>): (errs: seq<FieldError>)
    ensures errs == [] <==> title.Some? && 0 < |title.value| <= TITLE_MAX_LENGTH
    ensures (title.None? || title.value == "") ==> errs == [FieldError(TITLE, TITLE_REQUIRED)]
    ensures title.Some? && |title.value| > TITLE_MAX_LENGTH ==> errs == [FieldError(TITLE, TITLE_TOO_LONG)]
  {
    if title.None? || title.value == "" then [FieldError(TITLE, TITLE_REQUIRED)]
    else if |title.value| > TITLE_MAX_LENGTH then [FieldError(TITLE, TITLE_TOO_LONG)]
    else []
  }

  /** What a stored Note satisfies. */
  predicate ValidNote(d: Doc)
  {
    && d.ownerId != ""
    && TITLE in d.body && d.body[TITLE].Str? && Unpadded(d.body[TITLE].s)
    && 0 < |d.body[TITLE].s| <= TITLE_MAX_LENGTH
    && CONTENT in d.body && d.body[CONTENT].Str?
  }

  /**
   * `Note.create(input)`: the trim setter runs on assignment, defaults fill `content` and
   * `isArchived`, then validation reports the failing paths in schema order (title, ownerId).
   */
  function CreateNote(input: NoteInput): (r: Result<Doc, seq<FieldError>>)
    ensures r.Ok? <==> input.ownerId.Some? && input.ownerId.value != ""
                       && input.title.Some? && 0 < |Trim(input.title.value)| <= TITLE_MAX_LENGTH
    ensures r.Ok? ==> ValidNote(r.value)
    ensures r.Ok? ==> r.value.ownerId == input.ownerId.value
                      && r.value.body[TITLE] == Str(Trim(input.title.value))
    ensures r.Ok? ==> r.value.body[CONTENT] == Str(if input.content.Some? then input.content.value else "")
    ensures r.Ok? ==> r.value.isArchived == (input.isArchived == Some(true))
    ensures r.Err? ==> r.error == TitleErrors(if input.title.Some? then Some(Trim(input.title.value)) else None)
                                  + OwnerIdErrors(input.ownerId)
  {
    var title := if input.title.Some? then Some(Trim(input.title.value)) else None;
    var content := if input.content.Some? then input.content.value else "";
    var errs := TitleErrors(title) + OwnerIdErrors(input.ownerId);
    if errs != [] then Err(errs)
    else
      TrimShape(input.title.value);
      Ok(Doc(input.ownerId.value, DefaultArchived(input.isArchived),
             map[TITLE := Str(title.value), CONTENT := Str(content)]))
  }

  /** A title of spaces only is missing once trimmed. */
  lemma BlankTitleRequired(ownerId: string)
    ensures CreateNote(NoteInput(Some(ownerId), Some("   "), None, None)).Err?
    ensures FieldError(TITLE, TITLE_REQUIRED) in CreateNote(NoteInput(Some(ownerId), Some("   "), None, None)).error
  {
    TrimAllTrimmable("   ");
  }

  /** The bulk owner rewrite keeps every Note valid when the new owner is not empty. */
  lemma UpdateManyKeepsNotesValid(docs: seq<Doc>, from: string, to: string)
    requires forall i :: 0 <= i < |docs| ==> ValidNote(docs[i])
    requires to != ""
    ensures var r := UpdateManyOwner(docs, from, to);
      forall i :: 0 <= i < |r| ==> ValidNote(r[i])
  {
  }
}
