/** detect_duplicates of main/server/views.py: the accounts that share the
    signed-in user's e-mail address, reported as a pair when there are exactly
    two of them. */
module Duplicates {

  import opened Records

  /** The account fields the rule reads. */
  datatype Account = Account(id: int, email: string, dateJoined: int)

  /** User.objects.filter(email=email), in table order. */
  function SameEmail(accounts: seq<Account>, email: string): (m: seq<Account>)
    ensures |m| <= |accounts|
    ensures forall u: Account :: u in m <==> u in accounts && u.email == email
    ensures multiset(m) <= multiset(accounts)
  {
    if accounts == [] then []
    else
      var rest := SameEmail(accounts[1..], email);
      assert accounts == [accounts[0]] + accounts[1..];
      if accounts[0].email == email then [accounts[0]] + rest else rest
  }

  /** detect_duplicates: the two accounts with the address, earlier joined
      first, when there are exactly two; otherwise nothing. Two accounts that
      joined at the same moment come in table order. */
  function DetectDuplicates(accounts: seq<Account>, email: string): (r: Option<(Account, Account)>)
    ensures r.Some? <==> |SameEmail(accounts, email)| == 2
    ensures r.Some? ==> r.value.0.dateJoined <= r.value.1.dateJoined
    ensures r.Some? ==> multiset{r.value.0, r.value.1} == multiset(SameEmail(accounts, email))
    ensures r.Some? ==> r.value.0.email == email && r.value.1.email == email
  {
    var m := SameEmail(accounts, email);
    if |m| != 2 then None
    else
      assert m == [m[0], m[1]];
      if m[1].dateJoined < m[0].dateJoined then Some((m[1], m[0]))
      else Some((m[0], m[1]))
  }

  /** The accounts with the address, counted. */
  function CountEmail(accounts: seq<Account>, email: string): (n: nat)
  {
    if accounts == [] then 0
    else (if accounts[0].email == email then 1 else 0) + CountEmail(accounts[1..], email)
  }

  /** The filter keeps exactly the accounts with the address, as many times as
      they occur. */
  lemma {:induction false} SameEmailCounts(accounts: seq<Account>, email: string)
    ensures |SameEmail(accounts, email)| == CountEmail(accounts, email)
    ensures forall u: Account :: u.email == email ==> multiset(SameEmail(accounts, email))[u] == multiset(accounts)[u]
  {
    if accounts != [] {
      SameEmailCounts(accounts[1..], email);
      assert accounts == [accounts[0]] + accounts[1..];
    }
  }

  /** A pair is reported exactly when two accounts have the address, and the
      pair is made of those two accounts. */
  lemma PairIffTwo(accounts: seq<Account>, email: string)
    ensures DetectDuplicates(accounts, email).Some? <==> CountEmail(accounts, email) == 2
    ensures forall u: Account :: DetectDuplicates(accounts, email).Some? && u.email == email ==>
      multiset{DetectDuplicates(accounts, email).value.0,
               DetectDuplicates(accounts, email).value.1}[u] == multiset(accounts)[u]
  {
    SameEmailCounts(accounts, email);
  }
}
