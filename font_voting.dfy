/** The font-voting page: the fonts with their vote counters, the current
    user's vote ledger (font id to vote direction), the vote and undo
    handlers, hydration of the ledger from the user's vote rows, the
    stylesheet-loaded flag and the ranking by net score.

    The remote procedures `cast_vote` and `remove_vote` and the table reads
    are an oracle: the handlers take their outcome as a parameter. */
module FontVoting {
  import opened Base

  datatype VoteType = Up | Down

  /** A row of the `fonts` table plus the client-only `loaded` flag. */
  datatype Font = Font(id: int, url: string, name: string, upvotes: int, downvotes: int, loaded: bool)

  /** A row of the `votes` table, as fetched for the current user. */
  datatype VoteRow = VoteRow(fontId: int, voteType: VoteType)

  /** The net score shown on each card. */
  function Net(f: Font): int {
    f.upvotes - f.downvotes
  }

  /** The counter that a vote of kind `t` adjusts. */
  function Tally(f: Font, t: VoteType): int {
    match t
    case Up => f.upvotes
    case Down => f.downvotes
  }

  function Opposite(t: VoteType): VoteType {
    match t
    case Up => Down
    case Down => Up
  }

  /** `f` and `g` are the same font record apart from the two counters. */
  predicate SameExceptCounters(f: Font, g: Font) {
    f.id == g.id && f.url == g.url && f.name == g.name && f.loaded == g.loaded
  }

  // ---------------------------------------------------------------------
  // Counter updates (the `prevFonts.map` transforms)
  // ---------------------------------------------------------------------

  /** A font after a confirmed vote of kind `t`: exactly that counter grows
      by one. */
  function Cast(f: Font, t: VoteType): (g: Font)
    ensures Tally(g, t) == Tally(f, t) + 1
    ensures Tally(g, Opposite(t)) == Tally(f, Opposite(t))
    ensures Net(g) == if t == Up then Net(f) + 1 else Net(f) - 1
    ensures SameExceptCounters(f, g)
  {
    f.(upvotes := if t == Up then f.upvotes + 1 else f.upvotes,
       downvotes := if t == Down then f.downvotes + 1 else f.downvotes)
  }

  /** JavaScript's `Math.max(0, n - 1)`. */
  function DecrementFloored(n: int): int {
    if 0 > n - 1 then 0 else n - 1
  }

  /** A font after a confirmed removal of a vote of kind `t`: that counter
      shrinks by one, but never below zero. */
  function Remove(f: Font, t: VoteType): (g: Font)
    ensures Tally(g, t) >= 0
    ensures Tally(f, t) >= 1 ==> Tally(g, t) == Tally(f, t) - 1
    ensures Tally(f, t) < 1 ==> Tally(g, t) == 0
    ensures Tally(g, Opposite(t)) == Tally(f, Opposite(t))
    ensures SameExceptCounters(f, g)
  {
    f.(upvotes := if t == Up then DecrementFloored(f.upvotes) else f.upvotes,
       downvotes := if t == Down then DecrementFloored(f.downvotes) else f.downvotes)
  }

  /** The font list after a confirmed vote: every font with id `fontId` gets
      `Cast`, every other font is left as it was. */
  function ApplyCast(fonts: seq<Font>, fontId: int, t: VoteType): (r: seq<Font>)
    ensures |r| == |fonts|
    ensures forall i :: 0 <= i < |r| && fonts[i].id != fontId ==> r[i] == fonts[i]
    ensures forall i :: 0 <= i < |r| && fonts[i].id == fontId ==> r[i] == Cast(fonts[i], t)
  {
    if fonts == [] then []
    else
      var rest := ApplyCast(fonts[1..], fontId, t);
      var r := [if fonts[0].id == fontId then Cast(fonts[0], t) else fonts[0]] + rest;
      assert forall i :: 1 <= i < |r| ==> r[i] == rest[i - 1] && fonts[i] == fonts[1..][i - 1];
      r
  }

  /** The font list after a confirmed removal: every font with id `fontId`
      gets `Remove`, every other font is left as it was. */
  function ApplyRemove(fonts: seq<Font>, fontId: int, t: VoteType): (r: seq<Font>)
    ensures |r| == |fonts|
    ensures forall i :: 0 <= i < |r| && fonts[i].id != fontId ==> r[i] == fonts[i]
    ensures forall i :: 0 <= i < |r| && fonts[i].id == fontId ==> r[i] == Remove(fonts[i], t)
  {
    if fonts == [] then []
    else
      var rest := ApplyRemove(fonts[1..], fontId, t);
      var r := [if fonts[0].id == fontId then Remove(fonts[0], t) else fonts[0]] + rest;
      assert forall i :: 1 <= i < |r| ==> r[i] == rest[i - 1] && fonts[i] == fonts[1..][i - 1];
      r
  }

  /** Removing a vote undoes casting it, provided the counter was not negative. */
  lemma RemoveUndoesCast(f: Font, t: VoteType)
    requires Tally(f, t) >= 0
    ensures Remove(Cast(f, t), t) == f
  {
    match t
    case Up =>
    case Down =>
  }

  /** Round trip on the font list: a confirmed vote followed by a confirmed
      undo of the same vote restores every font, provided the affected
      counters were non-negative. */
  lemma CastThenRemoveRestores(fonts: seq<Font>, fontId: int, t: VoteType)
    requires forall i :: 0 <= i < |fonts| && fonts[i].id == fontId ==> Tally(fonts[i], t) >= 0
    ensures ApplyRemove(ApplyCast(fonts, fontId, t), fontId, t) == fonts
  {
    var cast := ApplyCast(fonts, fontId, t);
    var back := ApplyRemove(cast, fontId, t);
    forall i | 0 <= i < |fonts|
      ensures back[i] == fonts[i]
    {
      if fonts[i].id == fontId {
        RemoveUndoesCast(fonts[i], t);
      }
    }
  }

  /** The font list after the stylesheet of `fontId` has loaded: that font's
      `loaded` flag is set, nothing else changes. */
  function MarkLoaded(fonts: seq<Font>, fontId: int): (r: seq<Font>)
    ensures |r| == |fonts|
    ensures forall i :: 0 <= i < |r| ==> r[i].loaded == (fonts[i].loaded || fonts[i].id == fontId)
    ensures forall i :: 0 <= i < |r| ==> r[i].(loaded := fonts[i].loaded) == fonts[i]
  {
    if fonts == [] then []
    else
      var rest := MarkLoaded(fonts[1..], fontId);
      var r := [if fonts[0].id == fontId then fonts[0].(loaded := true) else fonts[0]] + rest;
      assert forall i :: 1 <= i < |r| ==> r[i] == rest[i - 1] && fonts[i] == fonts[1..][i - 1];
      r
  }

  /** The fetched rows with the client-only flag cleared (`loaded: false`). */
  function Unloaded(rows: seq<Font>): (r: seq<Font>)
    ensures |r| == |rows|
    ensures forall i :: 0 <= i < |r| ==> !r[i].loaded && r[i].(loaded := rows[i].loaded) == rows[i]
  {
    if rows == [] then []
    else
      var rest := Unloaded(rows[1..]);
      var r := [rows[0].(loaded := false)] + rest;
      assert forall i :: 1 <= i < |r| ==> r[i] == rest[i - 1] && rows[i] == rows[1..][i - 1];
      r
  }

  // ---------------------------------------------------------------------
  // Hydration of the ledger
  // ---------------------------------------------------------------------

  /** The ledger that folding the vote rows in order produces: each row
      writes its direction under its font id. */
  function LedgerOf(rows: seq<VoteRow>): map<int, VoteType>
  {
    if rows == [] then map[]
    else
      var last := rows[|rows| - 1];
      LedgerOf(rows[..|rows| - 1])[last.fontId := last.voteType]
  }

  /** A font has a ledger entry exactly when some vote row names it. */
  lemma {:induction false} LedgerOfKeys(rows: seq<VoteRow>, k: int)
    ensures k in LedgerOf(rows) <==> exists i :: 0 <= i < |rows| && rows[i].fontId == k
  {
    if rows != [] {
      var init := rows[..|rows| - 1];
      LedgerOfKeys(init, k);
      if k in LedgerOf(rows) && k != rows[|rows| - 1].fontId {
        var i :| 0 <= i < |init| && init[i].fontId == k;
        assert rows[i] == init[i];
      }
      if exists i :: 0 <= i < |rows| && rows[i].fontId == k {
        var i :| 0 <= i < |rows| && rows[i].fontId == k;
        if i < |rows| - 1 {
          assert init[i] == rows[i];
        }
      }
    }
  }

  /** The last row for a font decides its ledger entry: a later row for the
      same font overwrites an earlier one. */
  lemma {:induction false} LedgerOfLastRowWins(rows: seq<VoteRow>, i: int)
    requires 0 <= i < |rows|
    requires forall j :: i < j < |rows| ==> rows[j].fontId != rows[i].fontId
    ensures rows[i].fontId in LedgerOf(rows)
    ensures LedgerOf(rows)[rows[i].fontId] == rows[i].voteType
  {
    if i < |rows| - 1 {
      var init := rows[..|rows| - 1];
      assert init[i] == rows[i];
      forall j | i < j < |init|
        ensures init[j].fontId != init[i].fontId
      {
        assert init[j] == rows[j];
      }
      LedgerOfLastRowWins(init, i);
    }
  }

  /** The `forEach` loop that fills the ledger from the vote rows. */
  method BuildLedger(rows: seq<VoteRow>) returns (ledger: map<int, VoteType>)
    ensures ledger == LedgerOf(rows)
  {
    ledger := map[];
    for i := 0 to |rows|
      invariant ledger == LedgerOf(rows[..i])
    {
      assert rows[..i + 1][..i] == rows[..i];
      ledger := ledger[rows[i].fontId := rows[i].voteType];
    }
    assert rows[..|rows|] == rows;
  }

  // ---------------------------------------------------------------------
  // Ranking: a stable sort of a copy by descending net score
  // ---------------------------------------------------------------------

  /** Net scores never increase along `s`. */
  predicate RankedByNet(s: seq<Font>) {
    forall i, j :: 0 <= i < j < |s| ==> Net(s[i]) >= Net(s[j])
  }

  /** Puts `f` before the first font whose net score is not greater than its
      own, so that `f` stays ahead of the fonts it tied with. */
  function InsertByNet(f: Font, s: seq<Font>): (r: seq<Font>)
    ensures multiset(r) == multiset(s) + multiset{f}
  {
    if s == [] || Net(f) >= Net(s[0]) then [f] + s
    else
      assert s == [s[0]] + s[1..];
      [s[0]] + InsertByNet(f, s[1..])
  }

  lemma {:induction false} InsertByNetRanked(f: Font, s: seq<Font>)
    requires RankedByNet(s)
    ensures RankedByNet(InsertByNet(f, s))
  {
    if s == [] || Net(f) >= Net(s[0]) {
      var r := [f] + s;
      forall i, j | 0 <= i < j < |r|
        ensures Net(r[i]) >= Net(r[j])
      {
        if i == 0 {
          assert r[j] == s[j - 1];
        } else {
          assert r[i] == s[i - 1] && r[j] == s[j - 1];
        }
      }
    } else {
      var rest := InsertByNet(f, s[1..]);
      InsertByNetRanked(f, s[1..]);
      var r := [s[0]] + rest;
      forall i, j | 0 <= i < j < |r|
        ensures Net(r[i]) >= Net(r[j])
      {
        if i == 0 {
          var x := r[j];
          assert x == rest[j - 1];
          assert x in multiset(rest);
          if x != f {
            assert x in multiset(s[1..]);
            var k :| 0 <= k < |s[1..]| && s[1..][k] == x;
            assert s[k + 1] == x;
          }
        } else {
          assert r[i] == rest[i - 1] && r[j] == rest[j - 1];
        }
      }
    }
  }

  /** The display order of the fonts: `[...fonts].sort` with the comparator
      `b.net - a.net`, which is a stable sort (ties keep fetch order). */
  function SortByNet(s: seq<Font>): (r: seq<Font>)
    ensures multiset(r) == multiset(s)
    ensures RankedByNet(r)
  {
    if s == [] then []
    else
      assert s == [s[0]] + s[1..];
      InsertByNetRanked(s[0], SortByNet(s[1..]));
      InsertByNet(s[0], SortByNet(s[1..]))
  }

  /** The fonts of `s` whose net score is `v`, in order. */
  function WithNet(s: seq<Font>, v: int): seq<Font> {
    if s == [] then [] else (if Net(s[0]) == v then [s[0]] else []) + WithNet(s[1..], v)
  }

  lemma {:induction false} InsertByNetWithNet(f: Font, s: seq<Font>, v: int)
    ensures WithNet(InsertByNet(f, s), v) == if Net(f) == v then [f] + WithNet(s, v) else WithNet(s, v)
  {
    if s == [] || Net(f) >= Net(s[0]) {
      assert ([f] + s)[1..] == s;
    } else {
      var r := [s[0]] + InsertByNet(f, s[1..]);
      assert r[1..] == InsertByNet(f, s[1..]);
      InsertByNetWithNet(f, s[1..], v);
    }
  }

  /** Stability: among fonts with the same net score, the display order is
      the order in which they were fetched. */
  lemma {:induction false} SortByNetStable(s: seq<Font>, v: int)
    ensures WithNet(SortByNet(s), v) == WithNet(s, v)
  {
    if s != [] {
      SortByNetStable(s[1..], v);
      InsertByNetWithNet(s[0], SortByNet(s[1..]), v);
    }
  }

  // ---------------------------------------------------------------------
  // The page component
  // ---------------------------------------------------------------------

  /** The state of the voting page: its `fonts`, `userVotes`, `userId` and
      `loading` fields. */
  class VotingPage {
    var fonts: seq<Font>
    var userVotes: map<int, VoteType>
    var userId: string
    var loading: bool

    /** The initial component state. */
    constructor ()
      ensures fonts == [] && userVotes == map[] && userId == "" && loading
    {
      fonts := [];
      userVotes := map[];
      userId := "";
      loading := true;
    }

    /** The identity step of `initializeApp`: the stored id, or the freshly
        generated one when nothing (or an empty string) is stored. */
    method Initialize(storedId: Option<string>, generatedId: string)
      modifies this
      ensures userId == if storedId.Some? && storedId.value != "" then storedId.value else generatedId
      ensures fonts == old(fonts) && userVotes == old(userVotes) && loading == old(loading)
    {
      if storedId.Some? && storedId.value != "" {
        userId := storedId.value;
      } else {
        userId := generatedId;
      }
    }

    /** `fetchFontsAndVotes`: the two table reads are an oracle (`None` is a
        failed read). Only when both succeed are the fonts and the ledger
        replaced; `loading` ends false either way. */
    method FetchFontsAndVotes(fontsData: Option<seq<Font>>, votesData: Option<seq<VoteRow>>)
      modifies this
      ensures !loading && userId == old(userId)
      ensures fontsData.Some? && votesData.Some? ==>
                fonts == Unloaded(fontsData.value) && userVotes == LedgerOf(votesData.value)
      ensures fontsData.None? || votesData.None? ==>
                fonts == old(fonts) && userVotes == old(userVotes)
    {
      loading := true;
      if fontsData.Some? && votesData.Some? {
        fonts := Unloaded(fontsData.value);
        userVotes := BuildLedger(votesData.value);
      }
      loading := false;
    }

    /** The stylesheet `onload` callback for `fontId`. */
    method OnStylesheetLoad(fontId: int)
      modifies this
      ensures fonts == MarkLoaded(old(fonts), fontId)
      ensures userVotes == old(userVotes) && userId == old(userId) && loading == old(loading)
    {
      fonts := MarkLoaded(fonts, fontId);
    }

    /** `voteFont`. `called` says whether `cast_vote` was invoked, and
        `castOk` is its outcome. With no user id, or a ledger entry already
        present, nothing happens and no remote call is made. */
    method VoteFont(fontId: int, voteType: VoteType, castOk: bool) returns (called: bool)
      modifies this
      ensures called <==> old(userId) != "" && fontId !in old(userVotes)
      ensures userId == old(userId) && loading == old(loading)
      ensures called && castOk ==>
                fonts == ApplyCast(old(fonts), fontId, voteType) &&
                userVotes == old(userVotes)[fontId := voteType]
      ensures !(called && castOk) ==> fonts == old(fonts) && userVotes == old(userVotes)
    {
      called := false;
      if userId == "" {
        return;
      }
      if fontId in userVotes {
        return;
      }
      called := true;
      if !castOk {
        return;
      }
      fonts := ApplyCast(fonts, fontId, voteType);
      userVotes := userVotes[fontId := voteType];
    }

    /** `undoVote`. `called` says whether `remove_vote` was invoked (with the
        recorded direction), and `removeOk` is its outcome. */
    method UndoVote(fontId: int, removeOk: bool) returns (called: bool)
      modifies this
      ensures called <==> old(userId) != "" && fontId in old(userVotes)
      ensures userId == old(userId) && loading == old(loading)
      ensures called && removeOk ==>
                fonts == ApplyRemove(old(fonts), fontId, old(userVotes)[fontId]) &&
                userVotes == old(userVotes) - {fontId}
      ensures !(called && removeOk) ==> fonts == old(fonts) && userVotes == old(userVotes)
    {
      called := false;
      if userId == "" {
        return;
      }
      if fontId !in userVotes {
        return;
      }
      var voteType := userVotes[fontId];
      called := true;
      if !removeOk {
        return;
      }
      fonts := ApplyRemove(fonts, fontId, voteType);
      userVotes := userVotes - {fontId};
    }

    /** `sortedFonts`: a ranked permutation of `fonts`, computed on a copy, so
        `fonts` keeps its order. */
    function SortedFonts(): (r: seq<Font>)
      reads this
      ensures multiset(r) == multiset(fonts)
      ensures RankedByNet(r)
    {
      SortByNet(fonts)
    }

    /** Vote then undo, both confirmed by the remote store, from a state with
        no entry for `fontId` and non-negative counters: the page is back
        where it started. */
    method VoteThenUndo(fontId: int, t: VoteType)
      requires userId != "" && fontId !in userVotes
      requires forall i :: 0 <= i < |fonts| && fonts[i].id == fontId ==> Tally(fonts[i], t) >= 0
      modifies this
      ensures fonts == old(fonts) && userVotes == old(userVotes)
    {
      var voted := VoteFont(fontId, t, true);
      assert userVotes[fontId] == t;
      var undone := UndoVote(fontId, true);
      CastThenRemoveRestores(old(fonts), fontId, t);
      assert userVotes == old(userVotes)[fontId := t] - {fontId};
    }
  }
}
