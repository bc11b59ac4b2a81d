/** A tracker user: an ID, a login name, a hashed password, the contact-lens
    insertions (newest first, Left before Right on the same day) and the
    vehicles (by nickname). */
module Users {
  import opened Seqs
  import opened Sorting
  import opened Text
  import opened Calendar
  import opened Lenses

  // ---------------------------------------------------------------------------
  // The lens order

  /** OrderByDescending(Date).ThenBy(SideToString): a later insertion first,
      and on the same day the side names ascending. */
  predicate LensLe(a: Contact, b: Contact)
  {
    Before(b.date, a.date) || (a.date == b.date && StrLe(SideName(a.side), SideName(b.side)))
  }

  /** The lens order stated directly: dates never increase along the list, and
      a Right insertion is never followed by a Left one of the same day. */
  predicate NewestFirst(s: seq<Contact>)
  {
    forall i, j :: 0 <= i < j < |s| ==>
      AtMost(s[j].date, s[i].date) && (s[i].date == s[j].date ==> s[i].side == s[j].side || s[i].side == Left)
  }

  lemma LensLeTotalPreorder()
    ensures TotalPreorder(LensLe)
  {
    forall s: Side, t: Side
      ensures StrLe(SideName(s), SideName(t)) <==> s == t || s == Left
    {
      SideNames(s, t);
    }
  }

  lemma SortedNewestFirst(s: seq<Contact>)
    ensures SortedBy(s, LensLe) <==> NewestFirst(s)
  {
    forall a: Side, b: Side
      ensures StrLe(SideName(a), SideName(b)) <==> a == b || a == Left
    {
      SideNames(a, b);
    }
    if SortedBy(s, LensLe) {
      forall i, j | 0 <= i < j < |s|
        ensures AtMost(s[j].date, s[i].date) && (s[i].date == s[j].date ==> s[i].side == s[j].side || s[i].side == Left)
      {
        assert LensLe(s[i], s[j]);
      }
    }
  }

  /** The ordering the lens list is kept in. */
  function SortLenses(s: seq<Contact>): seq<Contact>
  {
    SortBy(s, LensLe)
  }

  /** Sorting the lenses rearranges them into the lens order, and insertions
      of the same day and side keep the order they had. */
  lemma SortLensesSpec(s: seq<Contact>, y: Contact)
    ensures multiset(SortLenses(s)) == multiset(s)
    ensures NewestFirst(SortLenses(s))
    ensures Filter(SortLenses(s), EquivalentTo(LensLe, y)) == Filter(s, EquivalentTo(LensLe, y))
  {
    LensLeTotalPreorder();
    SortByPermutation(s, LensLe);
    SortBySorted(s, LensLe);
    SortedNewestFirst(SortLenses(s));
    SortByStable(s, LensLe, y);
  }

  // ---------------------------------------------------------------------------
  // Vehicles

  /** The fields a vehicle is listed and compared by. */
  datatype Vehicle = Vehicle(nickname: string, make: string, model: string)

  /** OrderBy(Nickname). */
  predicate VehicleLe(a: Vehicle, b: Vehicle)
  {
    StrLe(a.nickname, b.nickname)
  }

  predicate ByNickname(s: seq<Vehicle>)
  {
    forall i, j :: 0 <= i < j < |s| ==> StrLe(s[i].nickname, s[j].nickname)
  }

  function SortVehicles(s: seq<Vehicle>): seq<Vehicle>
  {
    SortBy(s, VehicleLe)
  }

  lemma VehicleLeTotalPreorder()
    ensures TotalPreorder(VehicleLe)
  {
    forall a: Vehicle, b: Vehicle
      ensures VehicleLe(a, b) || VehicleLe(b, a)
    {
      StrLeTotal(a.nickname, b.nickname);
    }
    forall a: Vehicle, b: Vehicle, c: Vehicle | VehicleLe(a, b) && VehicleLe(b, c)
      ensures VehicleLe(a, c)
    {
      StrLeTransitive(a.nickname, b.nickname, c.nickname);
    }
  }

  /** Sorting the vehicles rearranges them by nickname, and vehicles with the
      same nickname keep the order they had. */
  lemma SortVehiclesSpec(s: seq<Vehicle>, y: Vehicle)
    ensures multiset(SortVehicles(s)) == multiset(s)
    ensures ByNickname(SortVehicles(s))
    ensures Filter(SortVehicles(s), EquivalentTo(VehicleLe, y)) == Filter(s, EquivalentTo(VehicleLe, y))
  {
    VehicleLeTotalPreorder();
    SortByPermutation(s, VehicleLe);
    SortBySorted(s, VehicleLe);
    SortByStable(s, VehicleLe, y);
    var r := SortVehicles(s);
    forall i, j | 0 <= i < j < |r|
      ensures StrLe(r[i].nickname, r[j].nickname)
    {
      assert VehicleLe(r[i], r[j]);
    }
  }

  /** Removing a vehicle, which does not re-sort, keeps a nickname-ordered
      list ordered. */
  lemma RemoveKeepsByNickname(s: seq<Vehicle>, v: Vehicle)
    ensures multiset(RemoveFirst(s, v)) == multiset(s) - multiset{v}
    ensures ByNickname(s) ==> ByNickname(RemoveFirst(s, v))
  {
    RemoveFirstCount(s, v);
    if v in s && ByNickname(s) {
      var r := RemoveFirst(s, v);
      assert SortedBy(s, VehicleLe);
      SortedRemoveAt(s, IndexOf(s, v), VehicleLe);
      assert SortedBy(r, VehicleLe);
      forall a, b | 0 <= a < b < |r|
        ensures StrLe(r[a].nickname, r[b].nickname)
      {
        assert VehicleLe(r[a], r[b]);
      }
    }
  }

  // ---------------------------------------------------------------------------
  // The user ID as it names the database file

  /** UserID.ToString().PadLeft(5, '0'). */
  function PaddedID(id: int): string
  {
    PadLeft(IntToString(id), 5, '0')
  }

  /** A non-negative ID becomes at least five decimal digits, zero-padded on
      the left, that read back as the ID; so distinct IDs name distinct files. */
  lemma PaddedIDSpec(id: int, other: int)
    requires id >= 0 && other >= 0
    ensures |PaddedID(id)| == if |NatToString(id)| >= 5 then |NatToString(id)| else 5
    ensures forall i :: 0 <= i < |PaddedID(id)| ==> IsDigit(PaddedID(id)[i])
    ensures ParseDigits(PaddedID(id)) == id
    ensures PaddedID(id) == PaddedID(other) <==> id == other
  {
    var n := NatToString(id);
    var r := PaddedID(id);
    forall i | 0 <= i < |r|
      ensures IsDigit(r[i])
    {
      if i >= |r| - |n| {
        assert r[i] == r[|r| - |n|..][i - (|r| - |n|)];
      }
    }
    ReadsBack(id);
    ReadsBack(other);
  }

  lemma ReadsBack(id: int)
    requires id >= 0
    ensures ParseDigits(PaddedID(id)) == id
  {
    var n := NatToString(id);
    var r := PaddedID(id);
    var k := |r| - |n|;
    var zeros := r[..k];
    assert r == zeros + n;
    assert zeros == seq(k, _ => '0');
    ParseDigitsZeros(k);
    ParseDigitsAppend(zeros, n);
    assert 0 * Pow10(|n|) + ParseDigits(n) == ParseDigits(n);
    ParseNatRoundTrip(id);
  }

  /** UserID 42 names the database "00042". */
  lemma PaddedIDExample()
    ensures PaddedID(42) == "00042"
  {
    assert NatToString(42) == NatToString(4) + [DigitChar(2)];
    assert IntToString(42) == "42";
  }

  // ---------------------------------------------------------------------------
  // The user

  class User {
    var userID: int
    var username: string
    var password: string
    var lenses: seq<Contact>
    var vehicles: seq<Vehicle>

    /** A new user with a login name and an already hashed password; the ID
        is left at 0 until the database assigns one. */
    constructor (username: string, password: string)
      ensures userID == 0 && this.username == username && this.password == password
      ensures lenses == [] && vehicles == []
    {
      userID := 0;
      this.username := username;
      this.password := password;
      lenses := [];
      vehicles := [];
    }

    /** The ID as it names the user's database file. */
    function UserIDToString(): (r: string)
      reads this
      ensures |r| >= 5
      ensures userID >= 0 ==> ParseDigits(r) == userID
    {
      if userID >= 0 then ReadsBack(userID); PaddedID(userID) else PaddedID(userID)
    }

    /** Adds the insertion, then re-sorts. */
    method AddContactLens(c: Contact)
      modifies this
      ensures lenses == SortLenses(old(lenses) + [c])
      ensures multiset(lenses) == multiset(old(lenses)) + multiset{c} && NewestFirst(lenses)
      ensures |lenses| == |old(lenses)| + 1
      ensures vehicles == old(vehicles) && userID == old(userID) && username == old(username) && password == old(password)
    {
      lenses := lenses + [c];
      UpdateContactLenses();
    }

    /** Replaces the first insertion equal to original by replacement, then
        re-sorts; a missing original only re-sorts. */
    method ModifyContactLens(original: Contact, replacement: Contact)
      modifies this
      ensures lenses == SortLenses(ReplaceFirst(old(lenses), original, replacement))
      ensures original in old(lenses) ==>
        multiset(lenses) == multiset(old(lenses)) - multiset{original} + multiset{replacement}
      ensures original !in old(lenses) ==> multiset(lenses) == multiset(old(lenses))
      ensures |lenses| == |old(lenses)| && NewestFirst(lenses)
      ensures vehicles == old(vehicles) && userID == old(userID) && username == old(username) && password == old(password)
    {
      if original in lenses {
        var i := IndexOf(lenses, original);
        ReplaceAt(lenses, i, replacement);
      }
      lenses := ReplaceFirst(lenses, original, replacement);
      UpdateContactLenses();
    }

    /** Removes the first insertion equal to c, if any, then re-sorts. */
    method RemoveContactLens(c: Contact)
      modifies this
      ensures lenses == SortLenses(RemoveFirst(old(lenses), c))
      ensures multiset(lenses) == multiset(old(lenses)) - multiset{c}
      ensures |lenses| == if c in old(lenses) then |old(lenses)| - 1 else |old(lenses)|
      ensures NewestFirst(lenses)
      ensures vehicles == old(vehicles) && userID == old(userID) && username == old(username) && password == old(password)
    {
      RemoveFirstCount(lenses, c);
      lenses := RemoveFirst(lenses, c);
      UpdateContactLenses();
    }

    /** Orders the insertions newest first, then by side name. */
    method UpdateContactLenses()
      modifies this
      ensures lenses == SortLenses(old(lenses))
      ensures multiset(lenses) == multiset(old(lenses)) && NewestFirst(lenses)
      ensures vehicles == old(vehicles) && userID == old(userID) && username == old(username) && password == old(password)
    {
      SortLensesSpec(lenses, Contact(MinValue, Left, MinValue));
      lenses := SortLenses(lenses);
    }

    /** Stores a copy of the given insertions, in the order given. */
    method SetLenses(newLenses: seq<Contact>)
      modifies this
      ensures lenses == newLenses
      ensures vehicles == old(vehicles) && userID == old(userID) && username == old(username) && password == old(password)
    {
      lenses := newLenses;
    }

    /** Adds the vehicle, then re-sorts by nickname. */
    method AddVehicle(v: Vehicle)
      modifies this
      ensures vehicles == SortVehicles(old(vehicles) + [v])
      ensures multiset(vehicles) == multiset(old(vehicles)) + multiset{v} && ByNickname(vehicles)
      ensures |vehicles| == |old(vehicles)| + 1
      ensures lenses == old(lenses) && userID == old(userID) && username == old(username) && password == old(password)
    {
      SortVehiclesSpec(vehicles + [v], v);
      vehicles := SortVehicles(vehicles + [v]);
    }

    /** Replaces the first vehicle equal to original, then re-sorts. */
    method ModifyVehicle(original: Vehicle, replacement: Vehicle)
      modifies this
      ensures vehicles == SortVehicles(ReplaceFirst(old(vehicles), original, replacement))
      ensures original in old(vehicles) ==>
        multiset(vehicles) == multiset(old(vehicles)) - multiset{original} + multiset{replacement}
      ensures original !in old(vehicles) ==> multiset(vehicles) == multiset(old(vehicles))
      ensures |vehicles| == |old(vehicles)| && ByNickname(vehicles)
      ensures lenses == old(lenses) && userID == old(userID) && username == old(username) && password == old(password)
    {
      if original in vehicles {
        ReplaceAt(vehicles, IndexOf(vehicles, original), replacement);
      }
      var r := ReplaceFirst(vehicles, original, replacement);
      SortVehiclesSpec(r, replacement);
      vehicles := SortVehicles(r);
    }

    /** Removes the first vehicle equal to v, if any, without re-sorting. */
    method RemoveVehicle(v: Vehicle)
      modifies this
      ensures vehicles == RemoveFirst(old(vehicles), v)
      ensures multiset(vehicles) == multiset(old(vehicles)) - multiset{v}
      ensures ByNickname(old(vehicles)) ==> ByNickname(vehicles)
      ensures lenses == old(lenses) && userID == old(userID) && username == old(username) && password == old(password)
    {
      RemoveKeepsByNickname(vehicles, v);
      vehicles := RemoveFirst(vehicles, v);
    }

    /** Stores a copy of the given vehicles, in the order given. */
    method SetVehicles(newVehicles: seq<Vehicle>)
      modifies this
      ensures vehicles == newVehicles
      ensures lenses == old(lenses) && userID == old(userID) && username == old(username) && password == old(password)
    {
      vehicles := newVehicles;
    }
  }

  /** Replacing the element at i swaps one occurrence of the old value for one
      of the new. */
  lemma ReplaceAt<T>(s: seq<T>, i: nat, x: T)
    requires i < |s|
    ensures multiset(s[i := x]) == multiset(s) - multiset{s[i]} + multiset{x}
  {
    assert s == s[..i] + [s[i]] + s[i + 1..];
    assert s[i := x] == s[..i] + [x] + s[i + 1..];
  }
}
