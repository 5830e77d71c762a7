/** The saved-email list of the login page: the suggestions shown under the email field
    as the user types, and the update that remembers an email after a successful login.
    The list lives in the browser's storage; only its values are modelled. */
module SavedEmails {
  import opened Text
  import opened Seqs

  /** At most this many emails are kept. */
  const MaxSaved := 10

  /** `savedEmail.toLowerCase().includes(email.toLowerCase())`: the saved email, in lower
      case, contains the input in lower case. */
  function Suggests(email: string): string -> bool
  {
    (saved: string) => Contains(Lower(saved), Lower(email))
  }

  /** The effect on the input and the saved list: the suggestions and whether the list of
      suggestions is shown. */
  function Suggestions(email: string, saved: seq<string>): (r: (seq<string>, bool))
    ensures r.1 <==> r.0 != []
  {
    if Trim(email) != "" && |saved| > 0 then
      var filtered := Filter(Suggests(email), saved);
      (filtered, |filtered| > 0)
    else
      ([], false)
  }

  /** Blank input (empty or white space only) or no saved emails: no suggestions, and the
      list is hidden. */
  lemma BlankInputSuggestsNothing(email: string, saved: seq<string>)
    requires AllSpace(email) || saved == []
    ensures Suggestions(email, saved) == ([], false)
  {
    TrimEmptyIff(email);
  }

  /** For input that is not blank, the suggestions are exactly the saved emails whose lower
      case contains the input's lower case, in saved order, each as often as it is saved. */
  lemma SuggestionsAreMatches(email: string, saved: seq<string>)
    requires !AllSpace(email)
    ensures var filtered := Suggestions(email, saved).0;
      && SubsequenceOf(filtered, saved)
      && (forall i :: 0 <= i < |filtered| ==> Suggests(email)(filtered[i]))
      && (forall i :: 0 <= i < |saved| && Suggests(email)(saved[i]) ==> saved[i] in filtered)
      && (forall x :: multiset(filtered)[x] == if Suggests(email)(x) then multiset(saved)[x] else 0)
  {
    TrimEmptyIff(email);
    FilterSubsequence(Suggests(email), saved);
    forall x
      ensures multiset(Filter(Suggests(email), saved))[x]
        == if Suggests(email)(x) then multiset(saved)[x] else 0
    {
      FilterMultiset(Suggests(email), saved, x);
    }
  }

  /** `[email.trim(), ...savedEmails].slice(0, 10)` after a successful login, when the trimmed
      email is not blank and not yet saved; otherwise the list is left alone. */
  function Remember(email: string, saved: seq<string>, loggedIn: bool): seq<string>
  {
    var t := Trim(email);
    if loggedIn && t != "" && t !in saved then
      var updated := [t] + saved;
      if |updated| <= MaxSaved then updated else updated[..MaxSaved]
    else
      saved
  }

  /** A new email goes to the front and the oldest entries beyond ten fall off the end. */
  lemma RememberPrepends(email: string, saved: seq<string>)
    requires Trim(email) != "" && Trim(email) !in saved
    ensures var r := Remember(email, saved, true);
      && |r| == (if |saved| < MaxSaved then |saved| + 1 else MaxSaved)
      && r[0] == Trim(email)
      && r[1..] == saved[..|r| - 1]
  {
    var t := Trim(email);
    var updated := [t] + saved;
    var r := Remember(email, saved, true);
    if |updated| <= MaxSaved {
      assert r == updated;
      assert r[1..] == saved;
    } else {
      assert r == updated[..MaxSaved];
      assert r[1..] == updated[1..MaxSaved];
      assert updated[1..MaxSaved] == saved[..MaxSaved - 1];
    }
  }

  /** An email already saved (after trimming), a blank one, or a failed login leaves the list
      exactly as it was; a saved email is not moved to the front. */
  lemma RememberLeavesListAlone(email: string, saved: seq<string>, loggedIn: bool)
    requires !loggedIn || AllSpace(email) || Trim(email) in saved
    ensures Remember(email, saved, loggedIn) == saved
  {
    TrimEmptyIff(email);
  }

  /** A list of at most ten distinct emails stays so, and after a login the trimmed email
      is in it. */
  lemma RememberKeepsInvariant(email: string, saved: seq<string>)
    requires |saved| <= MaxSaved
    requires forall i, j :: 0 <= i < j < |saved| ==> saved[i] != saved[j]
    ensures var r := Remember(email, saved, true);
      && |r| <= MaxSaved
      && (forall i, j :: 0 <= i < j < |r| ==> r[i] != r[j])
      && (Trim(email) != "" ==> Trim(email) in r)
  {
    var t := Trim(email);
    var r := Remember(email, saved, true);
    if t != "" && t !in saved {
      var updated := [t] + saved;
      if |updated| <= MaxSaved {
        assert r == updated;
      } else {
        assert r == updated[..MaxSaved];
      }
      assert forall k :: 1 <= k < |r| ==> r[k] == saved[k - 1];
      forall i, j | 0 <= i < j < |r| ensures r[i] != r[j] {
        if i == 0 {
          assert r[j] == saved[j - 1];
        } else {
          assert r[i] == saved[i - 1] && r[j] == saved[j - 1];
        }
      }
      assert r[0] == t;
    }
  }
}
