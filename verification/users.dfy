/**
 * The in-memory record store of the user registry: an ordered sequence of
 * (name, age) records with add, remove and list operations. Each operation
 * returns the new sequence together with the notifications it would show,
 * instead of printing them.
 */
module Users {
  import opened Names

  /** One stored record. Names are kept in normal form. */
  datatype User = User(name: string, age: int)

  /** The value the numeric age prompt yields: a number, or NaN for non-numeric input. */
  datatype Age = Num(n: int) | NaN

  /** Severity of a notification shown to the operator. */
  datatype Level = Success | Error | Info

  /** Output of an operation: a coloured message, or a table of the records. */
  datatype Notice = Notify(level: Level, text: string) | Table(rows: seq<User>)

  /** The store after an operation and what the operation reported. */
  datatype Outcome = Outcome(store: seq<User>, notices: seq<Notice>)

  const AddedText := "User has been successfully added!"
  const WrongDataText := "Wrong data!"
  const DeletedText := "User deleted!"
  const NotFoundText := "User not found..."
  const HeadingText := "Users data"
  const NoDataText := "No data..."

  /** The check `add` applies before storing: a non-empty name and a number above zero. */
  predicate ValidInput(name: string, age: Age) {
    |name| > 0 && age.Num? && age.n > 0
  }

  /** A record as `add` would store it. */
  predicate ValidUser(u: User) {
    |u.name| > 0 && IsNormal(u.name) && u.age > 0
  }

  /** Every record of the store could have been stored by `add`. */
  predicate ValidStore(store: seq<User>) {
    forall i :: 0 <= i < |store| ==> ValidUser(store[i])
  }

  /** True if some record carries exactly this name. */
  predicate HasName(store: seq<User>, name: string) {
    exists i :: 0 <= i < |store| && store[i].name == name
  }

  /** Number of records carrying exactly this name. */
  function CountNamed(store: seq<User>, name: string): (k: nat)
    ensures k <= |store|
    ensures k > 0 <==> HasName(store, name)
  {
    if store == [] then 0
    else
      assert HasName(store, name) <==> store[0].name == name || HasName(store[1..], name) by {
        if HasName(store[1..], name) {
          var i :| 0 <= i < |store[1..]| && store[1..][i].name == name;
          assert store[i + 1].name == name;
        }
        if HasName(store, name) && store[0].name != name {
          var i :| 0 <= i < |store| && store[i].name == name;
          assert store[1..][i - 1].name == name;
        }
      }
      (if store[0].name == name then 1 else 0) + CountNamed(store[1..], name)
  }

  /** The records whose name differs from `name`, in their original order. */
  function Without(store: seq<User>, name: string): (r: seq<User>)
    ensures |r| <= |store|
    ensures forall u :: u in r <==> u in store && u.name != name
  {
    if store == [] then []
    else if store[0].name == name then Without(store[1..], name)
    else [store[0]] + Without(store[1..], name)
  }

  /** Filtering drops exactly the records that carry the name. */
  lemma {:induction false} WithoutLength(store: seq<User>, name: string)
    ensures |Without(store, name)| == |store| - CountNamed(store, name)
  {
    if store != [] {
      WithoutLength(store[1..], name);
    }
  }

  /** Filtering a concatenation filters each part and keeps them in order. */
  lemma {:induction false} WithoutAppend(a: seq<User>, b: seq<User>, name: string)
    ensures Without(a + b, name) == Without(a, name) + Without(b, name)
  {
    if a == [] {
      assert a + b == b;
    } else {
      assert (a + b)[1..] == a[1..] + b;
      WithoutAppend(a[1..], b, name);
    }
  }

  /** Filtering out a name nobody has leaves the store as it is. */
  lemma {:induction false} WithoutAbsent(store: seq<User>, name: string)
    requires !HasName(store, name)
    ensures Without(store, name) == store
  {
    if store != [] {
      forall i | 0 <= i < |store[1..]|
        ensures store[1..][i].name != name
      {
        assert store[1..][i] == store[i + 1];
      }
      assert store[0].name != name;
      WithoutAbsent(store[1..], name);
      assert store == [store[0]] + store[1..];
    }
  }

  /** Filtering a second time changes nothing. */
  lemma WithoutIdempotent(store: seq<User>, name: string)
    ensures Without(Without(store, name), name) == Without(store, name)
  {
    WithoutAbsent(Without(store, name), name);
  }

  /** The `add` operation: validate, normalise the name, append. */
  function Add(store: seq<User>, name: string, age: Age): (r: Outcome)
    ensures ValidInput(name, age) ==>
      && |r.store| == |store| + 1
      && r.store[..|store|] == store
      && r.store[|store|].name == Normalize(name)
      && r.store[|store|].age == age.n
      && r.notices == [Notify(Success, AddedText)]
    ensures !ValidInput(name, age) ==>
      r.store == store && r.notices == [Notify(Error, WrongDataText)]
  {
    if ValidInput(name, age) then
      Outcome(store + [User(Normalize(name), age.n)], [Notify(Success, AddedText)])
    else
      Outcome(store, [Notify(Error, WrongDataText)])
  }

  /** Every record `add` stores is valid, so the store stays valid. */
  lemma AddKeepsValid(store: seq<User>, name: string, age: Age)
    requires ValidStore(store)
    ensures ValidStore(Add(store, name, age).store)
  {
    if ValidInput(name, age) {
      NormalizeIsNormal(name);
      var r := Add(store, name, age).store;
      assert r == store + [r[|store|]];
    }
  }

  /** The `remove` operation: normalise the target and drop every exact match. */
  function Remove(store: seq<User>, target: string): (r: Outcome)
    ensures r.store == Without(store, Normalize(target))
    ensures |r.store| == |store| - CountNamed(store, Normalize(target))
    ensures CountNamed(store, Normalize(target)) > 0 ==> r.notices == [Notify(Success, DeletedText)]
    ensures CountNamed(store, Normalize(target)) == 0 ==>
      r.store == store && r.notices == [Notify(Error, NotFoundText)]
  {
    var key := Normalize(target);
    var kept := Without(store, key);
    WithoutLength(store, key);
    if |kept| < |store| then
      Outcome(kept, [Notify(Success, DeletedText)])
    else
      WithoutAbsent(store, key);
      Outcome(store, [Notify(Error, NotFoundText)])
  }

  /** Removal keeps only stored records, so the store stays valid. */
  lemma RemoveKeepsValid(store: seq<User>, target: string)
    requires ValidStore(store)
    ensures ValidStore(Remove(store, target).store)
  {
    var r := Remove(store, target).store;
    forall i | 0 <= i < |r|
      ensures ValidUser(r[i])
    {
      assert r[i] in store;
    }
  }

  /** A second removal of the same name always reports "not found". */
  lemma RemoveTwice(store: seq<User>, target: string)
    ensures var once := Remove(store, target).store;
      Remove(once, target) == Outcome(once, [Notify(Error, NotFoundText)])
  {
    var once := Remove(store, target).store;
    forall i | 0 <= i < |once|
      ensures once[i].name != Normalize(target)
    {
      assert once[i] in once;
    }
  }

  /** The `list` operation: a heading, then the table or a "no data" error. */
  function ShowAll(store: seq<User>): (r: Outcome)
    ensures r.store == store
    ensures |r.notices| == 2 && r.notices[0] == Notify(Info, HeadingText)
    ensures r.notices[1].Notify? <==> store == []
    ensures r.notices[1].Notify? ==> r.notices[1] == Notify(Error, NoDataText)
    ensures r.notices[1].Table? ==> r.notices[1].rows == store
  {
    Outcome(store, [Notify(Info, HeadingText),
                    if |store| == 0 then Notify(Error, NoDataText) else Table(store)])
  }

  /** After a valid `add`, `list` shows the old records followed by the new one. */
  lemma AddThenList(store: seq<User>, name: string, age: Age)
    requires ValidInput(name, age)
    ensures ShowAll(Add(store, name, age).store).notices[1]
         == Table(store + [User(Normalize(name), age.n)])
  {
    var r := Add(store, name, age).store;
    assert r == store + [User(Normalize(name), age.n)];
  }
}
