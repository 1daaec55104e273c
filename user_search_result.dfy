/** The result of a user search: the list of matching documents, each
    holding one user, with the three ways of reading users out of it. The
    document list itself may be null. */
module UserSearchResult {
  import opened Common

  datatype UserDocument<U> = UserDocument(user: U)

  /** The users of the documents, in document order; none when the list is
      null. */
  function Users<U>(documents: Option<seq<UserDocument<U>>>): (users: seq<U>)
    ensures documents.None? ==> users == []
    ensures documents.Some? ==> |users| == |documents.value|
                                 && forall i :: 0 <= i < |users| ==> users[i] == documents.value[i].user
  {
    if documents.None? then [] else seq(|documents.value|, i requires 0 <= i < |documents.value| => documents.value[i].user)
  }

  /** Collects the users one document at a time. */
  method GetUsers<U>(documents: Option<seq<UserDocument<U>>>) returns (users: seq<U>)
    ensures users == Users(documents)
  {
    users := [];
    if documents.Some? {
      var docs := documents.value;
      for i := 0 to |docs|
        invariant |users| == i
        invariant forall j :: 0 <= j < i ==> users[j] == docs[j].user
      {
        users := users + [docs[i].user];
      }
    }
  }

  /** The first document's user, or null when there are no documents; a
      null list throws. */
  function GetFirstUser<U>(documents: Option<seq<UserDocument<U>>>): (r: Result<Option<U>>)
    ensures r.Err? <==> documents.None?
    ensures r.Ok? ==> (r.value.Some? <==> |documents.value| > 0)
    ensures r.Ok? && r.value.Some? ==> r.value.value == documents.value[0].user
  {
    if documents.None? then Err("NullPointerException")
    else if |documents.value| > 0 then Ok(Some(documents.value[0].user))
    else Ok(None)
  }

  /** Decimal digits of a count, as Java prints an int. */
  function DecimalString(n: nat): (s: string)
    ensures |s| > 0
  {
    if n < 10 then ["0123456789"[n]] else DecimalString(n / 10) + ["0123456789"[n % 10]]
  }

  /** The one document's user; any other count, zero included, throws. */
  function GetSingleUser<U>(documents: Option<seq<UserDocument<U>>>): (r: Result<U>)
    ensures r.Ok? <==> documents.Some? && |documents.value| == 1
    ensures r.Ok? ==> r.value == documents.value[0].user
    ensures documents.Some? && |documents.value| != 1 ==>
              r == Err("Expecting zero or single resulting match, and was " + DecimalString(|documents.value|))
  {
    if documents.None? then Err("NullPointerException")
    else if |documents.value| != 1 then
      Err("Expecting zero or single resulting match, and was " + DecimalString(|documents.value|))
    else Ok(documents.value[0].user)
  }

  /** When a single user exists it is the first user and the only one. */
  lemma SingleIsFirstAndOnly<U>(documents: Option<seq<UserDocument<U>>>)
    requires GetSingleUser(documents).Ok?
    ensures GetFirstUser(documents) == Ok(Some(GetSingleUser(documents).value))
    ensures Users(documents) == [GetSingleUser(documents).value]
  {
  }

  /** The first user is the head of the user list. */
  lemma FirstIsHeadOfUsers<U>(documents: Option<seq<UserDocument<U>>>)
    requires documents.Some?
    ensures GetFirstUser(documents) == if Users(documents) == [] then Ok(None) else Ok(Some(Users(documents)[0]))
  {
  }

  /** The count in the message reads back: the digits are those of the
      count. */
  lemma {:induction false} DecimalStringValue(n: nat)
    ensures DigitsValue(DecimalString(n)) == n
  {
    if n >= 10 {
      DecimalStringValue(n / 10);
      var s := DecimalString(n / 10) + ["0123456789"[n % 10]];
      assert s[..|s| - 1] == DecimalString(n / 10);
    }
  }

  /** The number a string of decimal digits denotes. */
  function DigitsValue(s: string): nat {
    if s == [] then 0
    else DigitsValue(s[..|s| - 1]) * 10 + DigitValue(s[|s| - 1])
  }

  function DigitValue(c: char): nat {
    if '0' <= c <= '9' then (c - '0') as nat else 0
  }
}
