/**
 * scripts/fetch-members.py, `save_to_csv`: the header and the thirteen
 * cells written for each member. What the `csv` module then does with a
 * cell (quoting cells that hold commas, quotes or line breaks) is not part
 * of this model; a cell is the text `str()` gives the value, and `None`
 * (a missing `name`, say) becomes an empty cell, which the model writes as
 * the empty string.
 */
module MemberCsv {
  import opened Wrappers
  import opened Strings

  /** A member dictionary; the keys read with `.get(key, default)` are optional. */
  datatype MemberRecord = MemberRecord(
    id: string, name: string, github: string, domains: seq<string>,
    repositories: Option<seq<string>>,
    publicRepos: Option<int>, totalStars: Option<int>, followers: Option<int>, following: Option<int>,
    avatar: Option<string>, bio: Option<string>, location: Option<string>, company: Option<string>)

  /** The header row. */
  const Header: seq<string> := ["id", "name", "github", "domain", "repositories",
                                "public_repos", "total_stars", "followers", "following",
                                "avatar", "bio", "location", "company"]

  /** Separator of the list cells. */
  const ListSeparator: char := ';'

  /** `.get(key, 0)` written as text. */
  function CountCell(v: Option<int>): string
  {
    IntToString(if v.Some? then v.value else 0)
  }

  /** `.get(key, '')` */
  function TextCell(v: Option<string>): string
  {
    if v.Some? then v.value else ""
  }

  /** The cells written for one member, in header order. */
  function Row(m: MemberRecord): seq<string>
  {
    [m.id, m.name, m.github,
     Join(m.domains, [ListSeparator]),
     Join(if m.repositories.Some? then m.repositories.value else [], [ListSeparator]),
     CountCell(m.publicRepos), CountCell(m.totalStars), CountCell(m.followers), CountCell(m.following),
     TextCell(m.avatar), TextCell(m.bio), TextCell(m.location), TextCell(m.company)]
  }

  /** The rows `save_to_csv` hands to the writer: the header, then one per member, in order. */
  method SaveRows(members: seq<MemberRecord>) returns (rows: seq<seq<string>>)
    ensures |rows| == |members| + 1 && rows[0] == Header
    ensures forall i :: 0 <= i < |members| ==> rows[i + 1] == Row(members[i])
  {
    rows := [Header];
    for i := 0 to |members|
      invariant |rows| == i + 1 && rows[0] == Header
      invariant forall k :: 0 <= k < i ==> rows[k + 1] == Row(members[k])
    {
      var member := members[i];
      var row := [member.id, member.name, member.github,
                  Join(member.domains, ";"),
                  Join(if member.repositories.Some? then member.repositories.value else [], ";"),
                  CountCell(member.publicRepos), CountCell(member.totalStars),
                  CountCell(member.followers), CountCell(member.following),
                  TextCell(member.avatar), TextCell(member.bio), TextCell(member.location), TextCell(member.company)];
      rows := rows + [row];
    }
  }

  /** Every row has one cell per header column, and the column named by the header holds the field of that name. */
  lemma RowMatchesHeader(m: MemberRecord)
    ensures |Row(m)| == |Header|
    ensures forall i :: 0 <= i < |Header| && Header[i] == "id" ==> Row(m)[i] == m.id
    ensures forall i :: 0 <= i < |Header| && Header[i] == "github" ==> Row(m)[i] == m.github
    ensures forall i :: 0 <= i < |Header| && Header[i] == "avatar" ==> Row(m)[i] == TextCell(m.avatar)
  {
    assert Header[0] == "id" && Header[2] == "github" && Header[9] == "avatar";
    forall i | 0 <= i < |Header| && Header[i] == "id"
      ensures i == 0
    {
      assert Header[i][0] == 'i' && Header[i][1] == 'd' && |Header[i]| == 2;
    }
    forall i | 0 <= i < |Header| && Header[i] == "github"
      ensures i == 2
    {
      assert |Header[i]| == 6 && Header[i][0] == 'g';
    }
    forall i | 0 <= i < |Header| && Header[i] == "avatar"
      ensures i == 9
    {
      assert |Header[i]| == 6 && Header[i][0] == 'a';
    }
  }

  /** A non-empty domain list whose names lack `;` is recovered by splitting the domain cell on `;`. */
  lemma DomainCellRoundTrip(m: MemberRecord)
    requires |m.domains| >= 1
    requires forall i :: 0 <= i < |m.domains| ==> ListSeparator !in m.domains[i]
    ensures Split(Row(m)[3], [ListSeparator]) == m.domains
  {
    SplitJoinRoundTrip(m.domains, ListSeparator);
  }

  /** The count cells read back as the stored count, or 0 when the key is missing. */
  lemma CountCellsRoundTrip(m: MemberRecord)
    ensures ParseInt(Row(m)[5]) == (if m.publicRepos.Some? then m.publicRepos.value else 0)
    ensures ParseInt(Row(m)[6]) == (if m.totalStars.Some? then m.totalStars.value else 0)
    ensures ParseInt(Row(m)[7]) == (if m.followers.Some? then m.followers.value else 0)
    ensures ParseInt(Row(m)[8]) == (if m.following.Some? then m.following.value else 0)
  {
    IntToStringRoundTrip(if m.publicRepos.Some? then m.publicRepos.value else 0);
    IntToStringRoundTrip(if m.totalStars.Some? then m.totalStars.value else 0);
    IntToStringRoundTrip(if m.followers.Some? then m.followers.value else 0);
    IntToStringRoundTrip(if m.following.Some? then m.following.value else 0);
  }

  /** A missing repository list gives an empty cell, as does an empty one. */
  lemma MissingRepositoriesEmptyCell(m: MemberRecord)
    requires m.repositories.None? || m.repositories == Some([])
    ensures Row(m)[4] == ""
  {
  }
}
