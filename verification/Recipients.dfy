/** Deduplicating notification recipients by e-mail address. */
module Recipients {
  import opened Domain
  import opened Text

  /** A recipient as looked up; a missing value is the empty string. */
  datatype Recipient = Recipient(userId: string, email: string, handle: string)

  datatype Entry = Entry(email: string, handle: string)

  function NormalEmail(email: string): string {
    Lower(Trim(email))
  }

  function EntryOf(r: Recipient): Entry {
    var email := NormalEmail(r.email);
    Entry(email, if Trim(r.handle) != "" then Trim(r.handle) else email)
  }

  /** A numeric user id as trimmed text. */
  function NumericId(userId: string): Option<string> {
    if AllDigits(Trim(userId)) then Some(Trim(userId)) else None
  }

  /** The entries of the recipients that have an address. */
  function Candidates(recipients: seq<Recipient>): seq<Entry> {
    if recipients == [] then []
    else
      var n := |recipients| - 1;
      Candidates(recipients[..n])
      + (if NormalEmail(recipients[n].email) != "" then [EntryOf(recipients[n])] else [])
  }

  /** The numeric user ids of the recipients without an address, each once. */
  function Unresolved(recipients: seq<Recipient>): seq<string> {
    if recipients == [] then []
    else
      var n := |recipients| - 1;
      var before, id := Unresolved(recipients[..n]), NumericId(recipients[n].userId);
      if NormalEmail(recipients[n].email) == "" && id.Some? && id.value !in before then before + [id.value] else before
  }

  predicate HasEmail(entries: seq<Entry>, email: string) {
    exists e | e in entries :: e.email == email
  }

  /** The first entry of each address, in order. */
  function FirstOfEach(entries: seq<Entry>): seq<Entry> {
    if entries == [] then []
    else
      var n := |entries| - 1;
      var before := FirstOfEach(entries[..n]);
      if HasEmail(entries[..n], entries[n].email) then before else before + [entries[n]]
  }

  /** The entries looked up for recipients without an address; nobody is looked up when there are none. */
  function Fallback(recipients: seq<Recipient>, lookup: seq<string> -> seq<Recipient>): seq<Entry> {
    if Unresolved(recipients) == [] then [] else Candidates(lookup(Unresolved(recipients)))
  }

  /** The deduplicated list. */
  function Deduplicated(recipients: seq<Recipient>, lookup: seq<string> -> seq<Recipient>): seq<Entry> {
    FirstOfEach(Candidates(recipients) + Fallback(recipients, lookup))
  }

  // ----- the loops -----

  /** What the Map holds: its entries in insertion order, found by address. */
  ghost predicate Represents(byEmail: map<string, Entry>, order: seq<string>, entries: seq<Entry>) {
    && |order| == |FirstOfEach(entries)|
    && (forall email :: email in byEmail <==> HasEmail(entries, email))
    && forall i | 0 <= i < |order| ::
         order[i] in byEmail && byEmail[order[i]] == FirstOfEach(entries)[i]
  }

  lemma HasEmailSnoc(entries: seq<Entry>, e: Entry, email: string)
    ensures HasEmail(entries + [e], email) <==> HasEmail(entries, email) || e.email == email
  {
    assert (entries + [e])[|entries|] == e;
  }

  lemma FirstOfEachSnoc(entries: seq<Entry>, e: Entry)
    ensures FirstOfEach(entries + [e]) ==
            if HasEmail(entries, e.email) then FirstOfEach(entries) else FirstOfEach(entries) + [e]
  {
    assert (entries + [e])[..|entries|] == entries;
  }

  lemma SkipKeeps(byEmail: map<string, Entry>, order: seq<string>, entries: seq<Entry>, e: Entry)
    requires Represents(byEmail, order, entries) && e.email in byEmail
    ensures Represents(byEmail, order, entries + [e])
  {
    hide FirstOfEach, HasEmail;
    FirstOfEachSnoc(entries, e);
    forall email
      ensures email in byEmail <==> HasEmail(entries + [e], email)
    {
      HasEmailSnoc(entries, e, email);
    }
  }

  lemma SetKeeps(byEmail: map<string, Entry>, order: seq<string>, entries: seq<Entry>, e: Entry)
    requires Represents(byEmail, order, entries) && e.email !in byEmail
    ensures Represents(byEmail[e.email := e], order + [e.email], entries + [e])
  {
    hide FirstOfEach, HasEmail;
    FirstOfEachSnoc(entries, e);
    var byEmail', order', more := byEmail[e.email := e], order + [e.email], entries + [e];
    forall email
      ensures email in byEmail' <==> HasEmail(more, email)
    {
      HasEmailSnoc(entries, e, email);
    }
    forall i | 0 <= i < |order'|
      ensures order'[i] in byEmail' && byEmail'[order'[i]] == FirstOfEach(more)[i]
    {
      if i < |order| {
        assert order'[i] == order[i] && order[i] in byEmail;
      }
    }
  }

  lemma CandidatesPrefix(recipients: seq<Recipient>, i: nat)
    requires i < |recipients|
    ensures Candidates(recipients[..i + 1]) ==
            Candidates(recipients[..i])
            + (if NormalEmail(recipients[i].email) != "" then [EntryOf(recipients[i])] else [])
    ensures var before, id := Unresolved(recipients[..i]), NumericId(recipients[i].userId);
            Unresolved(recipients[..i + 1]) ==
            if NormalEmail(recipients[i].email) == "" && id.Some? && id.value !in before then before + [id.value]
            else before
  {
    assert recipients[..i + 1][..i] == recipients[..i];
  }

  method DeduplicateRecipientsByEmail(recipients: seq<Recipient>, lookup: seq<string> -> seq<Recipient>)
      returns (result: seq<Entry>)
    ensures result == Deduplicated(recipients, lookup)
  {
    hide FirstOfEach, Represents, Candidates, Unresolved, HasEmail, NumericId, NormalEmail;
    var byEmail: map<string, Entry>, order: seq<string> := map[], [];
    var unresolved: seq<string> := [];
    assert Represents(byEmail, order, []) && Candidates(recipients[..0]) == [] && Unresolved(recipients[..0]) == [] by {
      StartsEmpty(recipients);
    }
    for i := 0 to |recipients|
      invariant Represents(byEmail, order, Candidates(recipients[..i]))
      invariant unresolved == Unresolved(recipients[..i])
    {
      var recipient := recipients[i];
      CandidatesPrefix(recipients, i);
      var email := NormalEmail(recipient.email);
      if email == "" {
        var userId := NumericId(recipient.userId);
        assert Candidates(recipients[..i + 1]) == Candidates(recipients[..i]);
        if userId.Some? {
          if userId.value !in unresolved {
            unresolved := unresolved + [userId.value];
          }
        }
      } else {
        var entry := EntryOf(recipient);
        if email !in byEmail {
          SetKeeps(byEmail, order, Candidates(recipients[..i]), entry);
          byEmail := byEmail[email := entry];
          order := order + [email];
        } else {
          SkipKeeps(byEmail, order, Candidates(recipients[..i]), entry);
        }
      }
    }
    assert recipients[..|recipients|] == recipients;
    ghost var direct := Candidates(recipients);
    ghost var fallback: seq<Entry> := [];
    assert direct + [] == direct;
    if |unresolved| > 0 {
      var users := lookup(unresolved);
      assert Candidates(users[..0]) == [] by { StartsEmpty(users); }
      for i := 0 to |users|
        invariant Represents(byEmail, order, direct + Candidates(users[..i]))
      {
        var user := users[i];
        CandidatesPrefix(users, i);
        ghost var before := direct + Candidates(users[..i]);
        var email := NormalEmail(user.email);
        if email != "" {
          var entry := EntryOf(user);
          assert before + [entry] == direct + Candidates(users[..i + 1]);
          if email !in byEmail {
            SetKeeps(byEmail, order, before, entry);
            byEmail := byEmail[email := entry];
            order := order + [email];
          } else {
            SkipKeeps(byEmail, order, before, entry);
          }
        } else {
          assert before == direct + Candidates(users[..i + 1]);
        }
      }
      assert users[..|users|] == users;
      fallback := Candidates(users);
    }
    result := ValuesOf(byEmail, order, direct + fallback);
  }

  /** The values of the Map in insertion order. */
  method ValuesOf(byEmail: map<string, Entry>, order: seq<string>, ghost entries: seq<Entry>)
      returns (values: seq<Entry>)
    requires Represents(byEmail, order, entries)
    ensures values == FirstOfEach(entries)
  {
    values := seq(|order|, i requires 0 <= i < |order| && order[i] in byEmail => byEmail[order[i]]);
  }

  lemma StartsEmpty(recipients: seq<Recipient>)
    ensures Represents(map[], [], [])
    ensures Candidates(recipients[..0]) == [] && Unresolved(recipients[..0]) == []
  {
    assert recipients[..0] == [];
  }

  // ----- what the list promises -----

  /** Entry `i` is the first one with its address. */
  predicate FirstAt(entries: seq<Entry>, i: nat) {
    i < |entries| && forall j | 0 <= j < i :: entries[j].email != entries[i].email
  }

  /** The positions of the first entries, in order. */
  function Firsts(entries: seq<Entry>): seq<nat> {
    if entries == [] then []
    else
      var n := |entries| - 1;
      Firsts(entries[..n]) + (if HasEmail(entries[..n], entries[n].email) then [] else [n])
  }

  lemma SeenBefore(entries: seq<Entry>, n: nat)
    requires n < |entries|
    ensures HasEmail(entries[..n], entries[n].email) <==> !FirstAt(entries, n)
  {
    if !FirstAt(entries, n) {
      var j :| 0 <= j < n && entries[j].email == entries[n].email;
      assert entries[..n][j] in entries[..n];
    }
  }

  lemma {:induction false} FirstsAre(entries: seq<Entry>)
    ensures forall i: nat :: i in Firsts(entries) <==> FirstAt(entries, i)
    ensures forall k, l | 0 <= k < l < |Firsts(entries)| :: Firsts(entries)[k] < Firsts(entries)[l]
  {
    hide HasEmail;
    if entries != [] {
      var n := |entries| - 1;
      var rest := entries[..n];
      FirstsAre(rest);
      SeenBefore(entries, n);
      forall i: nat | i < n
        ensures FirstAt(entries, i) <==> FirstAt(rest, i)
      {
        assert forall j | 0 <= j <= i :: rest[j] == entries[j];
      }
      assert forall k | 0 <= k < |Firsts(rest)| :: Firsts(rest)[k] in Firsts(rest);
    }
  }

  lemma {:induction false} FirstOfEachPicks(entries: seq<Entry>)
    ensures |FirstOfEach(entries)| == |Firsts(entries)|
    ensures forall k | 0 <= k < |Firsts(entries)| ::
      Firsts(entries)[k] < |entries| && FirstOfEach(entries)[k] == entries[Firsts(entries)[k]]
  {
    hide HasEmail;
    if entries != [] {
      FirstOfEachPicks(entries[..|entries| - 1]);
    }
  }

  /** Keeping the first entry of each address keeps exactly the first ones, in their order. */
  lemma {:induction false} FirstOfEachAre(entries: seq<Entry>)
    ensures var firsts := Firsts(entries);
      && |FirstOfEach(entries)| == |firsts|
      && (forall k | 0 <= k < |firsts| :: FirstAt(entries, firsts[k]) && FirstOfEach(entries)[k] == entries[firsts[k]])
      && (forall k, l | 0 <= k < l < |firsts| :: firsts[k] < firsts[l])
      && (forall i: nat | FirstAt(entries, i) :: i in firsts)
  {
    hide Firsts, FirstOfEach, FirstAt;
    FirstsAre(entries);
    FirstOfEachPicks(entries);
    assert forall k | 0 <= k < |Firsts(entries)| :: Firsts(entries)[k] in Firsts(entries);
  }

  lemma {:induction false} FirstPosition(entries: seq<Entry>, i: nat) returns (f: nat)
    requires i < |entries|
    ensures f <= i && FirstAt(entries, f) && entries[f].email == entries[i].email
  {
    if FirstAt(entries, i) {
      f := i;
    } else {
      var j :| 0 <= j < i && entries[j].email == entries[i].email;
      f := FirstPosition(entries, j);
    }
  }

  /** Addresses are pairwise different, and every address of the entries is kept. */
  lemma DistinctAndComplete(entries: seq<Entry>)
    ensures var kept := FirstOfEach(entries);
      && (forall k, l | 0 <= k < l < |kept| :: kept[k].email != kept[l].email)
      && (forall e | e in kept :: e in entries)
      && (forall email :: HasEmail(kept, email) <==> HasEmail(entries, email))
  {
    FirstOfEachAre(entries);
    var kept, firsts := FirstOfEach(entries), Firsts(entries);
    hide FirstOfEach, Firsts;
    forall email | HasEmail(entries, email)
      ensures HasEmail(kept, email)
    {
      var e :| e in entries && e.email == email;
      var i :| 0 <= i < |entries| && entries[i] == e;
      var f := FirstPosition(entries, i);
      var k :| 0 <= k < |firsts| && firsts[k] == f;
      assert kept[k] in kept && kept[k].email == email;
    }
  }

  /** Entries with pairwise different addresses are kept as they are. */
  lemma {:induction false} NothingToDrop(entries: seq<Entry>)
    requires forall k, l | 0 <= k < l < |entries| :: entries[k].email != entries[l].email
    ensures FirstOfEach(entries) == entries
  {
    if entries != [] {
      var n := |entries| - 1;
      NothingToDrop(entries[..n]);
      assert entries == entries[..n] + [entries[n]];
    }
  }

  /** Entries that come later never replace or precede an earlier one. */
  lemma {:induction false} LaterEntriesOnlyAppend(entries: seq<Entry>, more: seq<Entry>)
    ensures FirstOfEach(entries) <= FirstOfEach(entries + more)
  {
    if more == [] {
      assert entries + more == entries;
    } else {
      var n := |more| - 1;
      LaterEntriesOnlyAppend(entries, more[..n]);
      assert entries + more == entries + more[..n] + [more[n]];
      FirstOfEachSnoc(entries + more[..n], more[n]);
    }
  }

  // ----- normalized text -----

  lemma NormalEmailIsNormal(email: string)
    ensures NormalEmail(NormalEmail(email)) == NormalEmail(email)
    ensures Trim(NormalEmail(email)) == NormalEmail(email)
  {
    var before, after := TrimTrims(email);
    var s := Trim(email);
    assert s != "" ==> Lower(s)[0] == LowerChar(s[0]) && Lower(s)[|s| - 1] == LowerChar(s[|s| - 1]);
    TrimOfTrimmed(Lower(s));
    assert Lower(Lower(s)) == Lower(s);
  }

  /** An entry with a normalized, non-empty address and a trimmed, non-empty handle. */
  predicate Clean(e: Entry) {
    e.email != "" && NormalEmail(e.email) == e.email && e.handle != "" && Trim(e.handle) == e.handle
  }

  lemma {:induction false} CandidatesAreClean(recipients: seq<Recipient>)
    ensures forall e | e in Candidates(recipients) :: Clean(e)
    ensures forall r | r in recipients && NormalEmail(r.email) != "" :: EntryOf(r) in Candidates(recipients)
  {
    hide NormalEmail;
    if recipients != [] {
      var n := |recipients| - 1;
      CandidatesAreClean(recipients[..n]);
      NormalEmailIsNormal(recipients[n].email);
      var before, after := TrimTrims(recipients[n].handle);
      assert recipients == recipients[..n] + [recipients[n]];
    }
  }

  /** The same letter up to the case of A to Z. */
  predicate SameLetter(c: char, d: char) {
    || c == d
    || ('A' <= c <= 'Z' && d as int == c as int + 32)
    || ('A' <= d <= 'Z' && c as int == d as int + 32)
  }

  /** Two texts that differ at most in the case of letters. */
  predicate SameLetters(a: string, b: string) {
    |a| == |b| && forall i | 0 <= i < |a| :: SameLetter(a[i], b[i])
  }

  /** An address as the list shows it: not empty, without capital letters, and without white space at its ends. */
  predicate Plain(email: string) {
    email != "" && Trimmed(email) && forall i | 0 <= i < |email| :: !('A' <= email[i] <= 'Z')
  }

  predicate HasAddress(r: Recipient) {
    Trim(r.email) != ""
  }

  /** Entry `e` is how recipient `r` is listed: by the address without surrounding white space or capitals, and by the
      trimmed handle or else the address. */
  predicate Lists(e: Entry, r: Recipient) {
    && HasAddress(r) && Plain(e.email) && SameLetters(Trim(r.email), e.email)
    && e.handle == (if Trim(r.handle) != "" then Trim(r.handle) else e.email)
  }

  lemma NormalEmailMeans(email: string)
    ensures NormalEmail(email) != "" <==> Trim(email) != ""
    ensures Trim(email) != "" ==> Plain(NormalEmail(email)) && SameLetters(Trim(email), NormalEmail(email))
  {
    var before, after := TrimTrims(email);
    hide Trim;
    var s := Trim(email);
    if s != "" {
      assert !IsSpace(Lower(s)[0]) && !IsSpace(Lower(s)[|s| - 1]);
    }
  }

  lemma EntryLists(r: Recipient)
    requires HasAddress(r)
    ensures Lists(EntryOf(r), r)
  {
    NormalEmailMeans(r.email);
    hide Trim, NormalEmail;
  }

  /** Plain addresses with the same letters are equal. */
  lemma PlainIsOne(a: string, b: string, c: string, d: string)
    requires Plain(a) && Plain(b) && SameLetters(c, a) && SameLetters(d, b) && SameLetters(c, d)
    ensures a == b
  {
    forall i | 0 <= i < |a|
      ensures a[i] == b[i]
    {
      assert SameLetter(c[i], a[i]) && SameLetter(d[i], b[i]) && SameLetter(c[i], d[i]);
    }
  }

  lemma {:induction false} CandidatesList(recipients: seq<Recipient>)
    ensures forall e | e in Candidates(recipients) :: exists r | r in recipients :: Lists(e, r)
    ensures forall r | r in recipients && HasAddress(r) :: EntryOf(r) in Candidates(recipients)
  {
    if recipients != [] {
      var n := |recipients| - 1;
      var rest, last := recipients[..n], recipients[n];
      CandidatesList(rest);
      NormalEmailMeans(last.email);
      if HasAddress(last) {
        EntryLists(last);
      }
      assert HasAddress(last) <==> NormalEmail(last.email) != "";
      hide Lists, HasAddress, NormalEmail, EntryOf, Trim, Plain, SameLetters;
      assert recipients == rest + [last];
      assert forall r | r in recipients :: r in rest || r == last;
      assert last in recipients && forall r | r in rest :: r in recipients;
    }
  }

  /** Recipient `r` has no address, and `id` is its numeric user id. */
  predicate NeedsLookup(r: Recipient, id: string) {
    !HasAddress(r) && AllDigits(id) && Trim(r.userId) == id
  }

  /** Looked up are the numeric ids of exactly the recipients without an address, each id once. */
  lemma {:induction false} UnresolvedAre(recipients: seq<Recipient>)
    ensures forall id :: id in Unresolved(recipients) <==> exists r | r in recipients :: NeedsLookup(r, id)
    ensures forall k, l | 0 <= k < l < |Unresolved(recipients)| ::
      Unresolved(recipients)[k] != Unresolved(recipients)[l]
  {
    if recipients != [] {
      var n := |recipients| - 1;
      var last := recipients[n];
      UnresolvedAre(recipients[..n]);
      NormalEmailMeans(last.email);
      assert recipients == recipients[..n] + [last];
      hide NormalEmail, Trim;
      forall id
        ensures id in Unresolved(recipients) <==> id in Unresolved(recipients[..n]) || NeedsLookup(last, id)
      {
      }
    }
  }

  /** The recipients the list is made of: the given ones and, if somebody has to be looked up, those found. */
  function Everybody(recipients: seq<Recipient>, lookup: seq<string> -> seq<Recipient>): seq<Recipient> {
    recipients + if Unresolved(recipients) == [] then [] else lookup(Unresolved(recipients))
  }

  /** Each entry lists somebody, everybody with an address is listed, nobody twice in whatever letter case, and the
      users found never replace or precede a given recipient. */
  lemma DeduplicatedPromises(recipients: seq<Recipient>, lookup: seq<string> -> seq<Recipient>)
    ensures var result, everybody := Deduplicated(recipients, lookup), Everybody(recipients, lookup);
      && (forall e | e in result :: exists r | r in everybody :: Lists(e, r))
      && (forall r | r in everybody && HasAddress(r) ::
            exists e | e in result :: Plain(e.email) && SameLetters(Trim(r.email), e.email))
      && (forall k, l | 0 <= k < l < |result| :: result[k].email != result[l].email)
      && (forall e, e', r, r' | e in result && e' in result && Lists(e, r) && Lists(e', r')
                                && SameLetters(Trim(r.email), Trim(r'.email)) :: e == e')
      && (forall id :: id in Unresolved(recipients) <==> exists r | r in recipients :: NeedsLookup(r, id))
      && FirstOfEach(Candidates(recipients)) <= result
  {
    UnresolvedAre(recipients);
    var direct, fallback := Candidates(recipients), Fallback(recipients, lookup);
    var entries, result := direct + fallback, FirstOfEach(direct + fallback);
    var everybody := Everybody(recipients, lookup);
    CandidatesList(recipients);
    CandidatesList(lookup(Unresolved(recipients)));
    DistinctAndComplete(entries);
    LaterEntriesOnlyAppend(direct, fallback);
    hide FirstOfEach, Candidates, Unresolved, NeedsLookup, EntryOf, Lists, HasAddress, Trim, SameLetters, Plain;
    assert forall e | e in entries :: e in direct || e in fallback;
    forall r | r in everybody && HasAddress(r)
      ensures exists e | e in result :: Plain(e.email) && SameLetters(Trim(r.email), e.email)
    {
      assert EntryOf(r) in entries;
      EntryListed(r, entries);
    }
    forall e, e', r, r' | e in result && e' in result && Lists(e, r) && Lists(e', r')
                          && SameLetters(Trim(r.email), Trim(r'.email))
      ensures e == e'
    {
      OneAddress(e, e', r, r');
    }
  }

  lemma EntryListed(r: Recipient, entries: seq<Entry>)
    requires HasAddress(r) && EntryOf(r) in entries
    ensures exists e | e in FirstOfEach(entries) :: Plain(e.email) && SameLetters(Trim(r.email), e.email)
  {
    EntryLists(r);
    DistinctAndComplete(entries);
    hide FirstOfEach, EntryOf, Plain, SameLetters, Trim;
    assert HasEmail(entries, EntryOf(r).email);
    var e :| e in FirstOfEach(entries) && e.email == EntryOf(r).email;
  }

  lemma OneAddress(e: Entry, e': Entry, r: Recipient, r': Recipient)
    requires Lists(e, r) && Lists(e', r') && SameLetters(Trim(r.email), Trim(r'.email))
    ensures e.email == e'.email
  {
    hide Trim;
    PlainIsOne(e.email, e'.email, Trim(r.email), Trim(r'.email));
  }

  function AsRecipients(entries: seq<Entry>): seq<Recipient> {
    seq(|entries|, i requires 0 <= i < |entries| => Recipient("", entries[i].email, entries[i].handle))
  }

  lemma {:induction false} CleanCandidates(entries: seq<Entry>)
    requires forall e | e in entries :: Clean(e)
    ensures Candidates(AsRecipients(entries)) == entries && Unresolved(AsRecipients(entries)) == []
  {
    hide NormalEmail;
    if entries != [] {
      var n := |entries| - 1;
      assert AsRecipients(entries)[..n] == AsRecipients(entries[..n]);
      CleanCandidates(entries[..n]);
      assert entries[n] in entries;
      assert entries == entries[..n] + [entries[n]];
    }
  }

  /** Deduplicating the list again changes nothing. */
  lemma DeduplicatingAgain(recipients: seq<Recipient>, lookup: seq<string> -> seq<Recipient>)
    ensures var result := Deduplicated(recipients, lookup);
      Deduplicated(AsRecipients(result), lookup) == result
  {
    var result := Deduplicated(recipients, lookup);
    CandidatesAreClean(recipients);
    CandidatesAreClean(lookup(Unresolved(recipients)));
    var direct, fallback := Candidates(recipients), Fallback(recipients, lookup);
    DistinctAndComplete(direct + fallback);
    assert result == FirstOfEach(direct + fallback);
    hide FirstOfEach, Candidates, Unresolved, Clean, NormalEmail;
    assert forall e | e in direct + fallback :: e in direct || e in fallback;
    CleanCandidates(result);
    NothingToDrop(result);
    assert result + [] == result;
  }
}
