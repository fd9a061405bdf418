/** The admin console: the password gate, the join of the `font_tags` rows
    into a per-font list of tag ids and of those ids into tag names, the
    pending tag selection and its toggle, the delete-then-insert save against
    the `font_tags` table, and tag creation.

    Table reads, inserts and deletes are an oracle: the handlers take their
    outcome as a parameter. */
module FontAdmin {
  import opened Base

  /** A row of the `tags` table. */
  datatype Tag = Tag(id: int, name: string)

  /** A row of the `font_tags` table. */
  datatype FontTag = FontTag(fontId: int, tagId: int)

  /** A row of the `fonts` table, the client-only `loaded` flag and the
      resolved tag names. */
  datatype Font = Font(id: int, url: string, name: string, upvotes: int, downvotes: int,
                       loaded: bool, tags: seq<string>)

  /** The shared password the console compares against. */
  const AdminPassword: string := "admin123"

  // ---------------------------------------------------------------------
  // Grouping the font_tags rows
  // ---------------------------------------------------------------------

  /** The tag ids of the rows for `fontId`, in row order. */
  function TagIdsOf(rows: seq<FontTag>, fontId: int): seq<int>
  {
    if rows == [] then []
    else
      var last := rows[|rows| - 1];
      TagIdsOf(rows[..|rows| - 1], fontId) + (if last.fontId == fontId then [last.tagId] else [])
  }

  lemma {:induction false} TagIdsOfAppend(a: seq<FontTag>, b: seq<FontTag>, fontId: int)
    ensures TagIdsOf(a + b, fontId) == TagIdsOf(a, fontId) + TagIdsOf(b, fontId)
  {
    if b == [] {
      assert a + b == a;
    } else {
      assert (a + b)[..|a + b| - 1] == a + b[..|b| - 1];
      TagIdsOfAppend(a, b[..|b| - 1], fontId);
    }
  }

  /** A font has tag ids exactly when some row names it. */
  lemma {:induction false} TagIdsOfNonEmpty(rows: seq<FontTag>, fontId: int)
    ensures TagIdsOf(rows, fontId) != [] <==> exists i :: 0 <= i < |rows| && rows[i].fontId == fontId
  {
    if rows != [] {
      var init := rows[..|rows| - 1];
      TagIdsOfNonEmpty(init, fontId);
      if exists i :: 0 <= i < |init| && init[i].fontId == fontId {
        var i :| 0 <= i < |init| && init[i].fontId == fontId;
        assert rows[i] == init[i];
      }
      if exists i :: 0 <= i < |rows| && rows[i].fontId == fontId {
        var i :| 0 <= i < |rows| && rows[i].fontId == fontId;
        if i < |rows| - 1 {
          assert init[i] == rows[i];
        }
      }
    }
  }

  /** The `forEach` loop that builds `fontTagsMap`: a font id is a key
      exactly when it has rows, and its list is the tag ids of its rows in
      row order. */
  method GroupFontTags(rows: seq<FontTag>) returns (groups: map<int, seq<int>>)
    ensures forall k :: k in groups <==> TagIdsOf(rows, k) != []
    ensures forall k :: k in groups ==> groups[k] == TagIdsOf(rows, k)
  {
    groups := map[];
    for i := 0 to |rows|
      invariant forall k :: k in groups <==> TagIdsOf(rows[..i], k) != []
      invariant forall k :: k in groups ==> groups[k] == TagIdsOf(rows[..i], k)
    {
      assert rows[..i + 1][..i] == rows[..i];
      var row := rows[i];
      if row.fontId !in groups {
        groups := groups[row.fontId := []];
      }
      groups := groups[row.fontId := groups[row.fontId] + [row.tagId]];
    }
    assert rows[..|rows|] == rows;
  }

  /** `selectedTags[fontId] || []`, and `fontTagsMap[font.id] || []`. */
  function Pending(selection: map<int, seq<int>>, fontId: int): seq<int> {
    if fontId in selection then selection[fontId] else []
  }

  // ---------------------------------------------------------------------
  // Resolving tag ids to names
  // ---------------------------------------------------------------------

  /** `tags.find((t) => t.id === id)`. */
  function FindTag(tags: seq<Tag>, id: int): (r: Option<Tag>)
    ensures r.None? <==> forall j :: 0 <= j < |tags| ==> tags[j].id != id
    ensures r.Some? ==> r.value.id == id && r.value in tags
  {
    if tags == [] then None
    else if tags[0].id == id then Some(tags[0])
    else
      assert forall j :: 1 <= j < |tags| ==> tags[j] == tags[1..][j - 1];
      FindTag(tags[1..], id)
  }

  /** `find` returns the first tag with the id: no earlier tag has it. */
  lemma {:induction false} FindTagIsFirst(tags: seq<Tag>, id: int)
    requires FindTag(tags, id).Some?
    ensures exists j :: 0 <= j < |tags| && tags[j] == FindTag(tags, id).value
                        && forall k :: 0 <= k < j ==> tags[k].id != id
  {
    if tags[0].id != id {
      FindTagIsFirst(tags[1..], id);
      var j :| 0 <= j < |tags[1..]| && tags[1..][j] == FindTag(tags, id).value
               && forall k :: 0 <= k < j ==> tags[1..][k].id != id;
      assert tags[j + 1] == tags[1..][j];
      forall k | 0 <= k < j + 1
        ensures tags[k].id != id
      {
        if k > 0 {
          assert tags[k] == tags[1..][k - 1];
        }
      }
    }
  }

  /** `tag ? tag.name : ""`. */
  function NameOf(tags: seq<Tag>, id: int): string {
    match FindTag(tags, id)
    case Some(t) => t.name
    case None => ""
  }

  /** The tag names of `ids`, in order: each id is mapped to the name of its
      tag, and ids with no tag (or a tag with an empty name) are dropped by
      `.filter(Boolean)`. */
  function ResolveNames(ids: seq<int>, tags: seq<Tag>): (names: seq<string>)
    ensures |names| <= |ids|
    ensures forall n :: n in names ==> n != ""
    ensures forall i :: 0 <= i < |names| ==> exists j :: 0 <= j < |ids| && NameOf(tags, ids[j]) == names[i]
  {
    if ids == [] then []
    else
      var rest := ResolveNames(ids[1..], tags);
      assert forall j :: 1 <= j < |ids| ==> ids[j] == ids[1..][j - 1];
      var n := NameOf(tags, ids[0]);
      if n != "" then [n] + rest else rest
  }

  lemma {:induction false} ResolveNamesAppend(a: seq<int>, b: seq<int>, tags: seq<Tag>)
    ensures ResolveNames(a + b, tags) == ResolveNames(a, tags) + ResolveNames(b, tags)
  {
    if a == [] {
      assert a + b == b;
    } else {
      assert (a + b)[0] == a[0] && (a + b)[1..] == a[1..] + b;
      ResolveNamesAppend(a[1..], b, tags);
    }
  }

  /** Nothing but unknown ids is dropped: when every id names a tag with a
      non-empty name, the names line up one for one with the ids. */
  lemma {:induction false} ResolveNamesAllKnown(ids: seq<int>, tags: seq<Tag>)
    requires forall i :: 0 <= i < |ids| ==> NameOf(tags, ids[i]) != ""
    ensures |ResolveNames(ids, tags)| == |ids|
    ensures forall i :: 0 <= i < |ids| ==> ResolveNames(ids, tags)[i] == NameOf(tags, ids[i])
  {
    if ids != [] {
      var tail := ids[1..];
      assert forall j :: 0 <= j < |tail| ==> NameOf(tags, tail[j]) != "" by {
        forall j | 0 <= j < |tail|
          ensures NameOf(tags, tail[j]) != ""
        {
          assert tail[j] == ids[j + 1];
        }
      }
      ResolveNamesAllKnown(tail, tags);
      var rest := ResolveNames(tail, tags);
      var r := ResolveNames(ids, tags);
      ResolveNamesKnownCons(ids, tags);
      assert |r| == |ids| && forall i :: 0 <= i < |ids| ==> r[i] == NameOf(tags, ids[i]) by {
        forall i | 0 <= i < |ids|
          ensures r[i] == NameOf(tags, ids[i])
        {
          if i > 0 {
            assert r[i] == rest[i - 1] && tail[i - 1] == ids[i];
          }
        }
      }
    }
  }

  /** One step of `ResolveNames` past an id whose tag has a name. */
  lemma ResolveNamesKnownCons(ids: seq<int>, tags: seq<Tag>)
    requires ids != [] && NameOf(tags, ids[0]) != ""
    ensures ResolveNames(ids, tags) == [NameOf(tags, ids[0])] + ResolveNames(ids[1..], tags)
  {
  }

  /** The `processedFonts` of `fetchData`: the fetched rows with `loaded`
      cleared and `tags` empty, after which a loop assigns each font the
      names of its grouped tag ids. */
  method ProcessFonts(fontsData: seq<Font>, groups: map<int, seq<int>>, tags: seq<Tag>)
    returns (processed: seq<Font>)
    ensures |processed| == |fontsData|
    ensures forall i :: 0 <= i < |processed| ==>
              processed[i].tags == ResolveNames(Pending(groups, fontsData[i].id), tags) &&
              !processed[i].loaded &&
              processed[i].(loaded := fontsData[i].loaded, tags := fontsData[i].tags) == fontsData[i]
  {
    processed := seq(|fontsData|, i requires 0 <= i < |fontsData| => fontsData[i].(loaded := false, tags := []));
    for i := 0 to |processed|
      invariant |processed| == |fontsData|
      invariant forall k :: 0 <= k < i ==>
                  processed[k] == fontsData[k].(loaded := false, tags := ResolveNames(Pending(groups, fontsData[k].id), tags))
      invariant forall k :: i <= k < |processed| ==> processed[k] == fontsData[k].(loaded := false, tags := [])
    {
      var font := processed[i];
      processed := processed[i := font.(tags := ResolveNames(Pending(groups, font.id), tags))];
    }
  }

  // ---------------------------------------------------------------------
  // The pending selection
  // ---------------------------------------------------------------------

  /** `fontTags.filter((id) => id !== x)`. */
  function Without(s: seq<int>, x: int): (r: seq<int>)
    ensures x !in r
    ensures forall y :: y != x ==> (y in r <==> y in s)
    ensures |r| <= |s|
    ensures x !in s ==> r == s
  {
    if s == [] then []
    else
      assert s == [s[0]] + s[1..];
      (if s[0] == x then [] else [s[0]]) + Without(s[1..], x)
  }

  /** The selection after `toggleTag(fontId, tagId)`: a present tag is
      removed (every occurrence), an absent one is appended; no other font's
      list changes. */
  function Toggled(selection: map<int, seq<int>>, fontId: int, tagId: int): (r: map<int, seq<int>>)
    ensures r.Keys == selection.Keys + {fontId}
    ensures forall k :: k != fontId ==> Pending(r, k) == Pending(selection, k)
    ensures tagId in Pending(r, fontId) <==> tagId !in Pending(selection, fontId)
    ensures forall y :: y != tagId ==> (y in Pending(r, fontId) <==> y in Pending(selection, fontId))
    ensures tagId in Pending(selection, fontId) ==> Pending(r, fontId) == Without(Pending(selection, fontId), tagId)
    ensures tagId !in Pending(selection, fontId) ==> Pending(r, fontId) == Pending(selection, fontId) + [tagId]
  {
    var current := Pending(selection, fontId);
    selection[fontId := if tagId in current then Without(current, tagId) else current + [tagId]]
  }

  /** The filter removes every copy of `x` and keeps every other id with its
      number of copies. */
  lemma {:induction false} WithoutCounts(s: seq<int>, x: int)
    ensures multiset(Without(s, x)) == multiset(s)[x := 0]
  {
    if s != [] {
      assert s == [s[0]] + s[1..];
      WithoutCounts(s[1..], x);
    }
  }

  /** The filter works element by element, in order: filtering a
      concatenation gives the concatenation of the filtered parts. */
  lemma {:induction false} WithoutConcat(a: seq<int>, b: seq<int>, x: int)
    ensures Without(a + b, x) == Without(a, x) + Without(b, x)
  {
    if a == [] {
      assert a + b == b;
    } else {
      assert (a + b)[0] == a[0] && (a + b)[1..] == a[1..] + b;
      WithoutConcat(a[1..], b, x);
    }
  }

  lemma {:induction false} WithoutAppended(s: seq<int>, x: int)
    requires x !in s
    ensures Without(s + [x], x) == s
  {
    if s == [] {
      assert Without([x], x) == [] + Without([], x);
    } else {
      assert (s + [x])[0] == s[0] && (s + [x])[1..] == s[1..] + [x];
      assert Without(s + [x], x) == [s[0]] + Without(s[1..] + [x], x);
      WithoutAppended(s[1..], x);
    }
  }

  /** Toggling the same tag twice gives the font its original set of tags
      back, and its original list when the tag was absent; no other font's
      list changes. */
  lemma ToggleTwice(selection: map<int, seq<int>>, fontId: int, tagId: int)
    ensures forall y :: y in Pending(Toggled(Toggled(selection, fontId, tagId), fontId, tagId), fontId)
                        <==> y in Pending(selection, fontId)
    ensures tagId !in Pending(selection, fontId) ==>
              Pending(Toggled(Toggled(selection, fontId, tagId), fontId, tagId), fontId) == Pending(selection, fontId)
    ensures forall k :: k != fontId ==>
              Pending(Toggled(Toggled(selection, fontId, tagId), fontId, tagId), k) == Pending(selection, k)
  {
    if tagId !in Pending(selection, fontId) {
      WithoutAppended(Pending(selection, fontId), tagId);
    }
  }

  // ---------------------------------------------------------------------
  // Saving a selection: delete every row of the font, insert the selection
  // ---------------------------------------------------------------------

  /** The table after `delete().eq("font_id", fontId)`: the rows of the
      other fonts, in their order. */
  function WithoutFont(rows: seq<FontTag>, fontId: int): (r: seq<FontTag>)
    ensures |r| <= |rows|
    ensures forall i :: 0 <= i < |r| ==> r[i] in rows && r[i].fontId != fontId
  {
    if rows == [] then []
    else
      var last := rows[|rows| - 1];
      var kept := WithoutFont(rows[..|rows| - 1], fontId);
      assert forall x :: x in rows[..|rows| - 1] ==> x in rows;
      kept + (if last.fontId == fontId then [] else [last])
  }

  /** After the delete the font has no rows left, and every other font keeps
      exactly its rows, in order. */
  lemma {:induction false} WithoutFontRows(rows: seq<FontTag>, fontId: int, g: int)
    ensures TagIdsOf(WithoutFont(rows, fontId), g) == if g == fontId then [] else TagIdsOf(rows, g)
  {
    if rows != [] {
      var last := rows[|rows| - 1];
      var kept := WithoutFont(rows[..|rows| - 1], fontId);
      var tail := if last.fontId == fontId then [] else [last];
      WithoutFontRows(rows[..|rows| - 1], fontId, g);
      TagIdsOfAppend(kept, tail, g);
      assert [last][..0] == [];
    }
  }

  /** `currentTags.map((tagId) => ({ font_id: fontId, tag_id: tagId }))`. */
  function SelectionRows(fontId: int, selection: seq<int>): (r: seq<FontTag>)
    ensures |r| == |selection|
    ensures forall i :: 0 <= i < |r| ==> r[i] == FontTag(fontId, selection[i])
  {
    seq(|selection|, i requires 0 <= i < |selection| => FontTag(fontId, selection[i]))
  }

  lemma {:induction false} TagIdsOfSelection(fontId: int, selection: seq<int>, g: int)
    ensures TagIdsOf(SelectionRows(fontId, selection), g) == if g == fontId then selection else []
  {
    if selection != [] {
      var init := selection[..|selection| - 1];
      assert SelectionRows(fontId, selection)[..|selection| - 1] == SelectionRows(fontId, init);
      TagIdsOfSelection(fontId, init, g);
      assert selection == init + [selection[|selection| - 1]];
    }
  }

  /** After the delete and the insert both succeed, the rows of `fontId` are
      exactly the selection, in order, and every other font keeps its rows. */
  lemma SaveReplacesFontRows(rows: seq<FontTag>, fontId: int, selection: seq<int>, g: int)
    ensures TagIdsOf(WithoutFont(rows, fontId) + SelectionRows(fontId, selection), g)
            == if g == fontId then selection else TagIdsOf(rows, g)
  {
    TagIdsOfAppend(WithoutFont(rows, fontId), SelectionRows(fontId, selection), g);
    TagIdsOfSelection(fontId, selection, g);
    WithoutFontRows(rows, fontId, g);
  }

  /** The `font_tags` table of the remote store, as an ordered list of rows.
      `ok` is the oracle's answer for each request; a request either
      happens completely or not at all. */
  class FontTagsTable {
    var rows: seq<FontTag>

    constructor (rows: seq<FontTag>)
      ensures this.rows == rows
    {
      this.rows := rows;
    }

    /** `delete().eq("font_id", fontId)`. */
    method DeleteFont(fontId: int, ok: bool)
      modifies this
      ensures rows == if ok then WithoutFont(old(rows), fontId) else old(rows)
    {
      if ok {
        rows := WithoutFont(rows, fontId);
      }
    }

    /** `insert(newRows)`. */
    method Insert(newRows: seq<FontTag>, ok: bool)
      modifies this
      ensures rows == if ok then old(rows) + newRows else old(rows)
    {
      if ok {
        rows := rows + newRows;
      }
    }
  }

  /** The font list after a successful save: only the fonts with id
      `fontId` get the new tag names. */
  function ReplaceTags(fonts: seq<Font>, fontId: int, names: seq<string>): (r: seq<Font>)
    ensures |r| == |fonts|
    ensures forall i :: 0 <= i < |r| ==> r[i].tags == if fonts[i].id == fontId then names else fonts[i].tags
    ensures forall i :: 0 <= i < |r| ==> r[i].(tags := fonts[i].tags) == fonts[i]
  {
    if fonts == [] then []
    else
      var rest := ReplaceTags(fonts[1..], fontId, names);
      var r := [if fonts[0].id == fontId then fonts[0].(tags := names) else fonts[0]] + rest;
      assert forall i :: 1 <= i < |r| ==> r[i] == rest[i - 1] && fonts[i] == fonts[1..][i - 1];
      r
  }

  // ---------------------------------------------------------------------
  // Tag names typed by the administrator
  // ---------------------------------------------------------------------

  /** The characters JavaScript's `String.prototype.trim` removes: the
      white-space and line-terminator code points. */
  predicate IsJsWhitespace(c: char) {
    c == '\t' || c == '\n' || c == '\U{000B}' || c == '\U{000C}' || c == '\r' || c == ' '
    || c == '\U{00A0}' || c == '\U{1680}' || ('\U{2000}' <= c <= '\U{200A}')
    || c == '\U{2028}' || c == '\U{2029}' || c == '\U{202F}' || c == '\U{205F}'
    || c == '\U{3000}' || c == '\U{FEFF}'
  }

  predicate AllWhitespace(s: string) {
    forall k :: 0 <= k < |s| ==> IsJsWhitespace(s[k])
  }

  /** `s` without its leading white space: a suffix of `s`. */
  function TrimStart(s: string): (r: string)
    ensures |r| <= |s| && r == s[|s| - |r|..]
    ensures AllWhitespace(s[..|s| - |r|])
    ensures r == [] || !IsJsWhitespace(r[0])
  {
    if s != [] && IsJsWhitespace(s[0]) then
      var r := TrimStart(s[1..]);
      assert s[..|s| - |r|] == [s[0]] + s[1..][..|s| - 1 - |r|];
      r
    else s
  }

  /** `s` without its trailing white space: a prefix of `s`. */
  function TrimEnd(s: string): (r: string)
    ensures |r| <= |s| && r == s[..|r|]
    ensures AllWhitespace(s[|r|..])
    ensures r == [] || !IsJsWhitespace(r[|r| - 1])
  {
    if s != [] && IsJsWhitespace(s[|s| - 1]) then
      var r := TrimEnd(s[..|s| - 1]);
      assert s[|r|..] == s[..|s| - 1][|r|..] + [s[|s| - 1]];
      r
    else s
  }

  /** Where the trimmed name starts in `s`: after the leading white space. */
  function TrimOffset(s: string): nat {
    |s| - |TrimStart(s)|
  }

  /** `s.trim()`: the slice of `s` starting at `TrimOffset(s)`, with only
      white space cut on either side and no white space at either end. */
  function Trim(s: string): (r: string)
    ensures TrimOffset(s) + |r| <= |s| && r == s[TrimOffset(s)..TrimOffset(s) + |r|]
    ensures AllWhitespace(s[..TrimOffset(s)]) && AllWhitespace(s[TrimOffset(s) + |r|..])
    ensures r == [] || (!IsJsWhitespace(r[0]) && !IsJsWhitespace(r[|r| - 1]))
  {
    var t := TrimStart(s);
    var r := TrimEnd(t);
    SliceOfSuffix(s, t, r);
    r
  }

  /** A prefix `r` of a suffix `t` of `s` is a slice of `s`, and what follows
      it in `s` is what follows it in `t`. */
  lemma SliceOfSuffix(s: string, t: string, r: string)
    requires |t| <= |s| && t == s[|s| - |t|..]
    requires |r| <= |t| && r == t[..|r|]
    requires t == [] || !IsJsWhitespace(t[0])
    ensures r == s[|s| - |t|..|s| - |t| + |r|]
    ensures s[|s| - |t| + |r|..] == t[|r|..]
    ensures r == [] || !IsJsWhitespace(r[0])
  {
  }

  /** `trim()` yields the empty string exactly for an all-white-space name. */
  lemma TrimEmptyIffBlank(s: string)
    ensures Trim(s) == [] <==> AllWhitespace(s)
  {
    var i := TrimOffset(s);
    if Trim(s) == [] {
      forall k | 0 <= k < |s|
        ensures IsJsWhitespace(s[k])
      {
        assert s[..i][k] == s[k];
      }
    } else {
      assert s[i] == Trim(s)[0];
      assert !IsJsWhitespace(s[i]);
    }
  }

  /** Trimming twice is trimming once. */
  lemma TrimIdempotent(s: string)
    ensures Trim(Trim(s)) == Trim(s)
  {
    var r := Trim(s);
    assert TrimStart(r) == r;
    assert TrimEnd(r) == r;
  }

  // ---------------------------------------------------------------------
  // The admin page component
  // ---------------------------------------------------------------------

  /** The state of the admin page (its preview-dialog fields aside). */
  class AdminPage {
    var fonts: seq<Font>
    var tags: seq<Tag>
    var loading: bool
    var password: string
    var isAuthenticated: bool
    var newTag: string
    var editingFontId: Option<int>
    var selectedTags: map<int, seq<int>>

    /** The initial component state. */
    constructor ()
      ensures fonts == [] && tags == [] && loading && password == "" && !isAuthenticated
      ensures newTag == "" && editingFontId == None && selectedTags == map[]
    {
      fonts := [];
      tags := [];
      loading := true;
      password := "";
      isAuthenticated := false;
      newTag := "";
      editingFontId := None;
      selectedTags := map[];
    }

    /** The password input's `onChange`. */
    method EnterPassword(value: string)
      modifies this
      ensures password == value
      ensures isAuthenticated == old(isAuthenticated) && newTag == old(newTag)
      ensures fonts == old(fonts) && tags == old(tags) && selectedTags == old(selectedTags)
      ensures editingFontId == old(editingFontId) && loading == old(loading)
    {
      password := value;
    }

    /** `authenticate`: the typed password either matches the shared one,
        and the console opens and fetches its data (`fetch`), or nothing
        changes. */
    method Authenticate() returns (fetch: bool)
      modifies this
      ensures fetch == (old(password) == AdminPassword)
      ensures isAuthenticated == (old(isAuthenticated) || fetch)
      ensures password == old(password) && newTag == old(newTag)
      ensures fonts == old(fonts) && tags == old(tags) && selectedTags == old(selectedTags)
      ensures editingFontId == old(editingFontId) && loading == old(loading)
    {
      fetch := password == AdminPassword;
      if fetch {
        isAuthenticated := true;
      }
    }

    /** The mount effect: a stored session flag `"true"` opens the console
        and fetches its data. */
    method RestoreSession(stored: Option<string>) returns (fetch: bool)
      modifies this
      ensures fetch == (stored == Some("true"))
      ensures isAuthenticated == (old(isAuthenticated) || fetch)
      ensures password == old(password) && newTag == old(newTag)
      ensures fonts == old(fonts) && tags == old(tags) && selectedTags == old(selectedTags)
      ensures editingFontId == old(editingFontId) && loading == old(loading)
    {
      fetch := stored == Some("true");
      if fetch {
        isAuthenticated := true;
      }
    }

    /** `fetchData`: the three table reads are an oracle (`None` is a failed
        read). Only when all succeed are the selection, the fonts and the tag
        catalog replaced; `loading` ends false either way. */
    method FetchData(fontsData: Option<seq<Font>>, tagsData: Option<seq<Tag>>,
                     fontTagsData: Option<seq<FontTag>>)
      modifies this
      ensures !loading
      ensures password == old(password) && isAuthenticated == old(isAuthenticated)
      ensures newTag == old(newTag) && editingFontId == old(editingFontId)
      ensures fontsData.Some? && tagsData.Some? && fontTagsData.Some? ==>
                && tags == tagsData.value
                && (forall k :: k in selectedTags <==> TagIdsOf(fontTagsData.value, k) != [])
                && (forall k :: Pending(selectedTags, k) == TagIdsOf(fontTagsData.value, k))
                && |fonts| == |fontsData.value|
                && (forall i :: 0 <= i < |fonts| ==>
                      fonts[i].tags == ResolveNames(TagIdsOf(fontTagsData.value, fontsData.value[i].id), tags) &&
                      !fonts[i].loaded &&
                      fonts[i].(loaded := fontsData.value[i].loaded, tags := fontsData.value[i].tags) == fontsData.value[i])
      ensures !(fontsData.Some? && tagsData.Some? && fontTagsData.Some?) ==>
                fonts == old(fonts) && tags == old(tags) && selectedTags == old(selectedTags)
    {
      loading := true;
      if fontsData.Some? && tagsData.Some? && fontTagsData.Some? {
        var groups := GroupFontTags(fontTagsData.value);
        selectedTags := groups;
        fonts := ProcessFonts(fontsData.value, groups, tagsData.value);
        tags := tagsData.value;
      }
      loading := false;
    }

    /** The new-tag input's `onChange`. */
    method EnterNewTag(value: string)
      modifies this
      ensures newTag == value
      ensures password == old(password) && isAuthenticated == old(isAuthenticated)
      ensures fonts == old(fonts) && tags == old(tags) && selectedTags == old(selectedTags)
      ensures editingFontId == old(editingFontId) && loading == old(loading)
    {
      newTag := value;
    }

    /** `addTag`. `sent` is the name inserted into `tags` (none for a blank
        name), and `inserted` the rows the insert returned (`None` if it
        failed). */
    method AddTag(inserted: Option<seq<Tag>>) returns (sent: Option<string>)
      modifies this
      ensures sent == if Trim(old(newTag)) == [] then None else Some(Trim(old(newTag)))
      ensures sent.Some? && inserted.Some? && |inserted.value| > 0 ==>
                tags == old(tags) + [inserted.value[0]] && newTag == ""
      ensures !(sent.Some? && inserted.Some? && |inserted.value| > 0) ==>
                tags == old(tags) && newTag == old(newTag)
      ensures password == old(password) && isAuthenticated == old(isAuthenticated)
      ensures fonts == old(fonts) && selectedTags == old(selectedTags)
      ensures editingFontId == old(editingFontId) && loading == old(loading)
    {
      var name := Trim(newTag);
      if name == [] {
        return None;
      }
      sent := Some(name);
      if inserted.Some? && |inserted.value| > 0 {
        tags := tags + [inserted.value[0]];
        newTag := "";
      }
    }

    /** The "Edit Tags" button of a font. */
    method EditTags(fontId: int)
      modifies this
      ensures editingFontId == Some(fontId)
      ensures password == old(password) && isAuthenticated == old(isAuthenticated) && newTag == old(newTag)
      ensures fonts == old(fonts) && tags == old(tags) && selectedTags == old(selectedTags)
      ensures loading == old(loading)
    {
      editingFontId := Some(fontId);
    }

    /** `toggleTag`. */
    method ToggleTag(fontId: int, tagId: int)
      modifies this
      ensures selectedTags == Toggled(old(selectedTags), fontId, tagId)
      ensures password == old(password) && isAuthenticated == old(isAuthenticated) && newTag == old(newTag)
      ensures fonts == old(fonts) && tags == old(tags)
      ensures editingFontId == old(editingFontId) && loading == old(loading)
    {
      selectedTags := Toggled(selectedTags, fontId, tagId);
    }

    /** `saveFontTags`: delete every row of the font, then (for a non-empty
        selection) insert one row per selected tag. `deleteOk` and
        `insertOk` are the oracle's answers; `insertIssued` says whether the
        insert was sent. The local fonts and `editingFontId` change only
        when every request sent succeeded; a failed insert after a
        successful delete leaves the font with no rows at all. */
    method SaveFontTags(fontId: int, table: FontTagsTable, deleteOk: bool, insertOk: bool)
      returns (insertIssued: bool)
      modifies this, table
      ensures insertIssued == (deleteOk && Pending(old(selectedTags), fontId) != [])
      ensures !deleteOk ==> table.rows == old(table.rows)
      ensures deleteOk && !(insertIssued && insertOk) ==>
                table.rows == WithoutFont(old(table.rows), fontId)
      ensures insertIssued && insertOk ==>
                table.rows == WithoutFont(old(table.rows), fontId) + SelectionRows(fontId, Pending(old(selectedTags), fontId))
      ensures deleteOk && (!insertIssued || insertOk) ==>
                fonts == ReplaceTags(old(fonts), fontId, ResolveNames(Pending(old(selectedTags), fontId), old(tags))) &&
                editingFontId == None
      ensures !(deleteOk && (!insertIssued || insertOk)) ==>
                fonts == old(fonts) && editingFontId == old(editingFontId)
      ensures selectedTags == old(selectedTags) && tags == old(tags)
      ensures password == old(password) && isAuthenticated == old(isAuthenticated) && newTag == old(newTag)
      ensures loading == old(loading)
    {
      insertIssued := false;
      var currentTags := Pending(selectedTags, fontId);
      table.DeleteFont(fontId, deleteOk);
      if !deleteOk {
        return;
      }
      if |currentTags| > 0 {
        insertIssued := true;
        table.Insert(SelectionRows(fontId, currentTags), insertOk);
        if !insertOk {
          return;
        }
      }
      fonts := ReplaceTags(fonts, fontId, ResolveNames(currentTags, tags));
      editingFontId := None;
    }
  }
}
