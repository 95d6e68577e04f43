/** The list of users waiting to be deleted, kept by credential requirers and by keystone alike. */
module RetiredUsers {
  import opened Text

  predicate NoDuplicates(users: seq<string>) {
    forall i, j :: 0 <= i < j < |users| ==> users[i] != users[j]
  }

  function Retire(retired: seq<string>, user: string): seq<string> {
    if user in retired then retired else retired + [user]
  }

  function Without(users: seq<string>, gone: seq<string>): (rest: seq<string>)
    ensures forall u :: u in rest <==> u in users && u !in gone
  {
    if users == [] then []
    else if Last(users) in gone then Without(Front(users), gone)
    else Without(Front(users), gone) + [Last(users)]
  }

  lemma {:induction false} WithoutKeepsDistinct(users: seq<string>, gone: seq<string>)
    requires NoDuplicates(users)
    ensures NoDuplicates(Without(users, gone))
  {
    if users != [] {
      WithoutKeepsDistinct(Front(users), gone);
      assert Last(users) !in Front(users);
    }
  }
}
