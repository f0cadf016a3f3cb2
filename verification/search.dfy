/** The dashboard's search (src/components/Dashboard.tsx): entries whose
    website or email contains the query, ignoring case, in vault order; and
    the choice between the welcome screen and the listing. Lower-casing is
    modelled for ASCII letters only. */
module Search {
  import opened Types
  import Seqs

  /** ASCII `toLowerCase` of one character. */
  function LowerChar(c: char): (d: char)
    ensures 'A' <= c <= 'Z' ==> 'a' <= d <= 'z' && d as int - c as int == 32
    ensures !('A' <= c <= 'Z') ==> d == c
  {
    if 'A' <= c <= 'Z' then (c as int + 32) as char else c
  }

  /** `toLowerCase` of a string, character by character. */
  function Lower(s: string): (r: string)
    ensures |r| == |s|
    ensures forall i :: 0 <= i < |s| ==> r[i] == LowerChar(s[i])
  {
    if s == [] then [] else [LowerChar(s[0])] + Lower(s[1..])
  }

  /** Lower-casing twice changes nothing more. */
  lemma LowerIdempotent(s: string)
    ensures Lower(Lower(s)) == Lower(s)
  {
  }

  /** `q` occurs in `s` starting at position `i`. */
  predicate OccursAt(s: string, q: string, i: int) {
    0 <= i && i + |q| <= |s| && s[i..i + |q|] == q
  }

  /** `s.includes(q)`. */
  function Includes(s: string, q: string): bool
    decreases |s|
  {
    if |q| > |s| then false
    else if s[..|q|] == q then true
    else Includes(s[1..], q)
  }

  /** `Includes` is exactly "occurs somewhere". */
  lemma {:induction false} IncludesIffOccurs(s: string, q: string)
    ensures Includes(s, q) <==> exists i :: OccursAt(s, q, i)
    decreases |s|
  {
    if |q| > |s| {
      assert forall i :: !OccursAt(s, q, i);
    } else if s[..|q|] == q {
      assert OccursAt(s, q, 0);
    } else {
      IncludesIffOccurs(s[1..], q);
      if exists i :: OccursAt(s, q, i) {
        var i :| OccursAt(s, q, i);
        assert i != 0;
        assert s[1..][i - 1..i - 1 + |q|] == s[i..i + |q|];
        assert OccursAt(s[1..], q, i - 1);
      }
      if exists j :: OccursAt(s[1..], q, j) {
        var j :| OccursAt(s[1..], q, j);
        assert s[1..][j..j + |q|] == s[j + 1..j + 1 + |q|];
        assert OccursAt(s, q, j + 1);
      }
    }
  }

  /** The empty query occurs in every string. */
  lemma IncludesEmpty(s: string)
    ensures Includes(s, "")
  {
  }

  /** The match test for one entry, given the already lower-cased query. */
  predicate Matches(e: PasswordEntry, lowerQuery: string) {
    Includes(Lower(e.website), lowerQuery) || Includes(Lower(e.email), lowerQuery)
  }

  function Matcher(lowerQuery: string): PasswordEntry -> bool {
    e => Matches(e, lowerQuery)
  }

  /** `filteredPasswords`. */
  function FilterPasswords(ps: seq<PasswordEntry>, query: string): (r: seq<PasswordEntry>)
    ensures query == "" ==> r == ps
    ensures forall e :: e in r ==> e in ps && Matches(e, Lower(query))
    ensures forall e :: e in ps && Matches(e, Lower(query)) ==> e in r
    ensures query != "" ==>
      forall e :: multiset(r)[e] == if Matches(e, Lower(query)) then multiset(ps)[e] else 0
    ensures Seqs.IsSubsequence(r, ps)
    ensures |r| <= |ps|
  {
    if query == "" then
      assert Seqs.IsSubsequence(ps, ps) by { Seqs.SubsequenceRefl(ps); }
      ps
    else Seqs.Filter(ps, Matcher(Lower(query)))
  }

  /** Searching for a query and for its lower-cased form gives the same
      entries. */
  lemma CaseInsensitive(ps: seq<PasswordEntry>, query: string)
    ensures FilterPasswords(ps, query) == FilterPasswords(ps, Lower(query))
  {
    LowerIdempotent(query);
  }

  /** The empty-query shortcut agrees with the filter it skips: every entry
      matches the empty query. */
  lemma EmptyQueryShortcutAgrees(ps: seq<PasswordEntry>)
    ensures Seqs.Filter(ps, Matcher(Lower(""))) == ps
  {
    forall e | e in ps ensures Matcher(Lower(""))(e) {
      IncludesEmpty(Lower(e.website));
    }
    Seqs.FilterKeepsAll(ps, Matcher(Lower("")));
  }

  /** What the dashboard shows. */
  datatype View =
    | Welcome
    | Listing(shown: seq<PasswordEntry>, total: nat)
    | NoMatches(total: nat)

  function Render(ps: seq<PasswordEntry>, query: string): (v: View)
    ensures v.Welcome? <==> |ps| == 0
    ensures v.Listing? ==> v.total == |ps| && v.shown == FilterPasswords(ps, query) && |v.shown| > 0
    ensures v.NoMatches? ==> v.total == |ps| > 0 && FilterPasswords(ps, query) == []
  {
    if |ps| == 0 then Welcome
    else
      var shown := FilterPasswords(ps, query);
      if |shown| == 0 then NoMatches(|ps|) else Listing(shown, |ps|)
  }
}
