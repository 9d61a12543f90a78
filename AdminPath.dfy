/** The admin route of the caching proxy: the regular expression
    `\/(admin)\/([a-z]{5})(\?|\/)?(.+)?` run with `exec` on the request path. It is not
    anchored, so it finds the leftmost `/admin/` followed by five lower-case letters anywhere
    in the path; group 2 is the command, and group 4, present only when some text follows, is
    the query text, after one optional `?` or `/`. */
module AdminPath {
  import opened Js

  const PREFIX := "/admin/"
  const COMMAND_LENGTH := 5

  predicate IsLower(c: char) { 'a' <= c <= 'z' }

  /** The characters `.` does not match. */
  predicate IsLineTerminator(c: char) {
    c == '\n' || c == '\r' || c == '\U{2028}' || c == '\U{2029}'
  }

  /** The pattern matches starting at position `p` of `path`. */
  predicate AdminAt(path: string, p: int) {
    && 0 <= p
    && p + |PREFIX| + COMMAND_LENGTH <= |path|
    && path[p..p + |PREFIX|] == PREFIX
    && forall k :: p + |PREFIX| <= k < p + |PREFIX| + COMMAND_LENGTH ==> IsLower(path[k])
  }

  /** The first position at or after `from` where the pattern matches. */
  function FindFrom(path: string, from: nat): (r: Option<nat>)
    requires from <= |path|
    decreases |path| - from
    ensures r.Some? ==> from <= r.value && AdminAt(path, r.value)
    ensures r.Some? ==> forall q :: from <= q < r.value ==> !AdminAt(path, q)
    ensures r.None? ==> forall q :: from <= q ==> !AdminAt(path, q)
  {
    if AdminAt(path, from) then Some(from)
    else if from == |path| then None
    else FindFrom(path, from + 1)
  }

  /** The longest prefix of `s` that `.+` can match. */
  function LinePrefix(s: string): (r: string)
    ensures |r| <= |s| && r == s[..|r|]
    ensures forall j :: 0 <= j < |r| ==> !IsLineTerminator(r[j])
    ensures |r| == |s| || IsLineTerminator(s[|r|])
  {
    if s != [] && !IsLineTerminator(s[0]) then [s[0]] + LinePrefix(s[1..]) else []
  }

  lemma {:induction false} LinePrefixWhole(s: string)
    requires forall j :: 0 <= j < |s| ==> !IsLineTerminator(s[j])
    ensures LinePrefix(s) == s
  {
    if s != [] {
      LinePrefixWhole(s[1..]);
    }
  }

  /** Group 4 when the command ends at `i`: the optional separator is taken if present, then
      `(.+)?` takes the rest of the line, and is undefined if that is empty. */
  function QueryAfter(path: string, i: nat): (r: Option<string>)
    requires i <= |path|
    ensures var j := if i < |path| && (path[i] == '?' || path[i] == '/') then i + 1 else i;
      r.Some? ==>
        && r.value != []
        && j + |r.value| <= |path| && r.value == path[j..j + |r.value|]
        && (forall k :: 0 <= k < |r.value| ==> !IsLineTerminator(r.value[k]))
        && (j + |r.value| == |path| || IsLineTerminator(path[j + |r.value|]))
  {
    var j := if i < |path| && (path[i] == '?' || path[i] == '/') then i + 1 else i;
    var rest := LinePrefix(path[j..]);
    if rest == [] then None else Some(rest)
  }

  datatype AdminMatch = AdminMatch(command: string, query: Option<string>)

  /** The admin command and query text of a path, or None when the path is not an admin path. */
  function MatchAdmin(path: string): (r: Option<AdminMatch>)
    ensures r.Some? <==> exists p :: AdminAt(path, p)
    ensures r.Some? ==> |r.value.command| == COMMAND_LENGTH &&
                        forall k :: 0 <= k < |r.value.command| ==> IsLower(r.value.command[k])
    ensures r.Some? && r.value.query.Some? ==>
              r.value.query.value != [] &&
              forall k :: 0 <= k < |r.value.query.value| ==> !IsLineTerminator(r.value.query.value[k])
  {
    match FindFrom(path, 0)
    case None => None
    case Some(p) =>
      var c := p + |PREFIX|;
      Some(AdminMatch(path[c..c + COMMAND_LENGTH], QueryAfter(path, c + COMMAND_LENGTH)))
  }

  /** The match is the leftmost one: where the pattern first matches, the command is the five
      letters after `/admin/` there and the query text is what follows them. */
  lemma MatchAdminLeftmost(path: string, p: nat)
    requires AdminAt(path, p)
    requires forall q :: 0 <= q < p ==> !AdminAt(path, q)
    ensures MatchAdmin(path) ==
              Some(AdminMatch(path[p + 7..p + 12], QueryAfter(path, p + 12)))
  {
    var r := FindFrom(path, 0);
    assert r.Some?;
    assert r.value == p;
  }

  /** The query text exists exactly when something other than a line terminator follows the
      command, after skipping one optional separator. */
  lemma QueryPresence(path: string, i: nat)
    requires i <= |path|
    ensures var j := if i < |path| && (path[i] == '?' || path[i] == '/') then i + 1 else i;
      QueryAfter(path, i).Some? <==> j < |path| && !IsLineTerminator(path[j])
  {
  }

  lemma ExampleReset()
    ensures MatchAdmin("/admin/reset") == Some(AdminMatch("reset", None))
  {
    var path := "/admin/reset";
    assert path[0..7] == PREFIX;
    assert path[7..12] == "reset";
    assert path[12..] == [];
    MatchAdminLeftmost(path, 0);
  }

  lemma ExampleCacheQuery()
    ensures MatchAdmin("/admin/cache?key=a") == Some(AdminMatch("cache", Some("key=a")))
  {
    var path := "/admin/cache?key=a";
    assert path[0..7] == PREFIX;
    assert path[7..12] == "cache";
    assert path[13..] == "key=a";
    LinePrefixWhole("key=a");
    MatchAdminLeftmost(path, 0);
  }

  /** Not anchored, and the command is cut at five letters: `/x/admin/cacheskey=a` is the
      command `cache` with the query text `skey=a`. */
  lemma ExampleUnanchored()
    ensures MatchAdmin("/x/admin/cacheskey=a") == Some(AdminMatch("cache", Some("skey=a")))
  {
    var path := "/x/admin/cacheskey=a";
    UnanchoredMatch(path);
    UnanchoredQuery(path);
  }

  lemma UnanchoredMatch(path: string)
    requires path == "/x/admin/cacheskey=a"
    ensures MatchAdmin(path) == Some(AdminMatch("cache", QueryAfter(path, 14)))
  {
    assert path[9..14] == "cache";
    assert !AdminAt(path, 0) by { assert path[0..7][1] != PREFIX[1]; }
    assert !AdminAt(path, 1) by { assert path[1..8][0] != PREFIX[0]; }
    assert AdminAt(path, 2) by { assert path[2..9] == PREFIX; }
    MatchAdminLeftmost(path, 2);
  }

  lemma UnanchoredQuery(path: string)
    requires path == "/x/admin/cacheskey=a"
    ensures QueryAfter(path, 14) == Some("skey=a")
  {
    assert path[14] == 's';
    assert path[14..] == "skey=a";
    LinePrefixWhole("skey=a");
  }

  lemma ExampleUpperCase()
    ensures MatchAdmin("/admin/Reset") == None
  {
    var path := "/admin/Reset";
    assert forall q :: 0 < q ==> !AdminAt(path, q);
    assert !IsLower(path[7]);
  }
}
