/**
 The allow and block lists of a map: which devices may be the origin of the instances it carries.
 The marker `All` stands for every device.
 */
module MapScopes {
  type DeviceId = nat

  datatype Origin = All | Device(id: DeviceId)

  datatype Scopes = Scopes(allow: seq<Origin>, block: seq<Origin>)

  /** Which of the two lists an operation addresses. */
  datatype Prop = Allow | Block

  function Other(p: Prop): Prop {
    if p == Allow then Block else Allow
  }

  function List(s: Scopes, p: Prop): seq<Origin> {
    if p == Allow then s.allow else s.block
  }

  function SetList(s: Scopes, p: Prop, list: seq<Origin>): Scopes {
    if p == Allow then s.(allow := list) else s.(block := list)
  }

  /** Position of `o`, or the length of the list. */
  function Find(list: seq<Origin>, o: Origin, from: nat := 0): (i: nat)
    requires from <= |list|
    ensures from <= i <= |list|
    ensures i < |list| ==> list[i] == o
    ensures o !in list[from..i] && (i == |list| ==> o !in list[from..])
    decreases |list| - from
  {
    if from == |list| || list[from] == o then from else Find(list, o, from + 1)
  }

  function Without(list: seq<Origin>, o: Origin): seq<Origin> {
    var i := Find(list, o);
    if i == |list| then list else list[..i] + list[i + 1..]
  }

  function RemoveFrom(list: seq<Origin>, o: Origin): seq<Origin> {
    if o == All then [] else if list == [All] then list else Without(list, o)
  }

  function Remove(s: Scopes, p: Prop, o: Origin): Scopes {
    SetList(s, p, RemoveFrom(List(s, p), o))
  }

  function Add(s: Scopes, p: Prop, o: Origin): Scopes {
    var list := List(s, p);
    if list == [All] then if o == All then s else Remove(s, Other(p), o)
    else if o == All then SetList(s, p, [All])
    else Remove(SetList(s, p, if o in list then list else list + [o]), Other(p), o)
  }

  function AddEach(s: Scopes, p: Prop, values: seq<Origin>): Scopes {
    if values == [] then s else Add(AddEach(s, p, values[..|values| - 1]), p, values[|values| - 1])
  }

  /** The elements of a list that occur among `values`. */
  function Keep(list: seq<Origin>, values: seq<Origin>): seq<Origin> {
    if list == [] then []
    else if list[0] in values then [list[0]] + Keep(list[1..], values)
    else Keep(list[1..], values)
  }

  /** Replace a list by `values`, which do not start with a marker. */
  function Replace(s: Scopes, p: Prop, values: seq<Origin>): Scopes {
    var list := List(s, p);
    AddEach(if list == [All] then s else SetList(s, p, Keep(list, values)), p, values)
  }

  predicate HasScope(s: Scopes, d: DeviceId) {
    if s.allow == [All] then Device(d) !in s.block else Device(d) in s.allow
  }

  // ---------- the invariant of the two lists ----------

  predicate NoDuplicates(list: seq<Origin>) {
    forall i, j :: 0 <= i < j < |list| ==> list[i] != list[j]
  }

  /** No duplicates, the marker only alone, and no device on both lists. */
  ghost predicate Ok(s: Scopes) {
    && NoDuplicates(s.allow) && NoDuplicates(s.block)
    && (All in s.allow ==> s.allow == [All])
    && (All in s.block ==> s.block == [All])
    && forall d: DeviceId :: Device(d) in s.allow ==> Device(d) !in s.block
  }

  lemma WithoutMeaning(list: seq<Origin>, o: Origin)
    requires NoDuplicates(list)
    ensures NoDuplicates(Without(list, o))
    ensures forall x :: x in Without(list, o) <==> x in list && x != o
  {
    var i := Find(list, o);
    if i < |list| {
      assert list == list[..i] + [list[i]] + list[i + 1..];
      assert forall j :: i < j < |list| ==> list[j] != list[i];
    }
  }

  lemma RemoveKeepsOk(s: Scopes, p: Prop, o: Origin)
    requires Ok(s)
    ensures Ok(Remove(s, p, o))
    ensures o != All ==> forall x :: x in List(Remove(s, p, o), p) <==> x in List(s, p) && x != o
    ensures o == All ==> List(Remove(s, p, o), p) == []
    ensures List(Remove(s, p, o), Other(p)) == List(s, Other(p))
  {
    WithoutMeaning(List(s, p), o);
    if List(s, p) == [All] && o != All {
      assert All in List(s, p);
    }
  }

  lemma AddKeepsOk(s: Scopes, p: Prop, o: Origin)
    requires Ok(s)
    ensures Ok(Add(s, p, o))
    ensures List(s, p) != [All] && o != All ==> forall x :: x in List(Add(s, p, o), p) <==> x in List(s, p) || x == o
    ensures List(s, p) == [All] ==> List(Add(s, p, o), p) == [All]
    ensures o == All ==> List(Add(s, p, o), p) == [All] && List(Add(s, p, o), Other(p)) == List(s, Other(p))
  {
    var list := List(s, p);
    if o != All && list != [All] {
      WithoutMeaning(List(s, Other(p)), o);
      var longer := if o in list then list else list + [o];
      assert NoDuplicates(longer) && All !in longer;
    } else if o != All {
      RemoveKeepsOk(s, Other(p), o);
    }
  }

  /** Adding or removing "all": the list is then "all", or empty, and the other one is as before. */
  lemma AllMeaning(s: Scopes, p: Prop)
    ensures List(Add(s, p, All), p) == [All] && List(Add(s, p, All), Other(p)) == List(s, Other(p))
    ensures List(Remove(s, p, All), p) == [] && List(Remove(s, p, All), Other(p)) == List(s, Other(p))
  {
  }

  /** Adding a device: it is on its list, unless that is "all", and on no other; all other entries stay. */
  lemma DeviceMeaning(s: Scopes, p: Prop, d: DeviceId)
    requires Ok(s)
    ensures var t := Add(s, p, Device(d));
            && List(t, p) == (if List(s, p) == [All] || Device(d) in List(s, p) then List(s, p)
                              else List(s, p) + [Device(d)])
            && Device(d) !in List(t, Other(p))
            && (forall x :: x != Device(d) ==> (x in List(t, Other(p)) <==> x in List(s, Other(p))))
    ensures var t := Remove(s, p, Device(d));
            && Device(d) !in List(t, p) && List(t, Other(p)) == List(s, Other(p))
            && (forall x :: x != Device(d) ==> (x in List(t, p) <==> x in List(s, p)))
  {
    WithoutMeaning(List(s, p), Device(d));
    WithoutMeaning(List(s, Other(p)), Device(d));
    hide Without;
  }

  /** After "all" is allowed exactly the blocked devices are shut out; after "all" is taken from the allowed
      origins everyone is. */
  lemma AllVerdict(s: Scopes, d: DeviceId)
    ensures HasScope(Add(s, Allow, All), d) <==> Device(d) !in s.block
    ensures !HasScope(Remove(s, Allow, All), d)
  {
    AllMeaning(s, Allow);
  }

  /** The verdict itself: the origin is allowed by name, or it is not blocked while all are allowed. */
  lemma Verdict(s: Scopes, d: DeviceId)
    requires Ok(s)
    ensures HasScope(s, d) <==> Device(d) in s.allow || (All in s.allow && Device(d) !in s.block)
  {
  }

  /** Allowing a device makes its verdict true and leaves every other device's verdict alone. */
  lemma AllowVerdict(s: Scopes, d: DeviceId)
    requires Ok(s)
    ensures HasScope(Add(s, Allow, Device(d)), d)
    ensures forall e: DeviceId :: e != d ==> (HasScope(Add(s, Allow, Device(d)), e) <==> HasScope(s, e))
  {
    AddKeepsOk(s, Allow, Device(d));
    RemoveKeepsOk(s, Block, Device(d));
  }

  /** Blocking a device makes its verdict false unless both lists say "all"; other verdicts stay. */
  lemma BlockVerdict(s: Scopes, d: DeviceId)
    requires Ok(s)
    ensures !HasScope(Add(s, Block, Device(d)), d) <==> !(s.allow == [All] && s.block == [All])
    ensures forall e: DeviceId :: e != d ==> (HasScope(Add(s, Block, Device(d)), e) <==> HasScope(s, e))
  {
    AddKeepsOk(s, Block, Device(d));
    RemoveKeepsOk(s, Allow, Device(d));
    if s.block != [All] {
      WithoutMeaning(s.allow, Device(d));
    }
  }

  lemma {:induction false} KeepMeaning(list: seq<Origin>, values: seq<Origin>)
    ensures forall x :: x in Keep(list, values) <==> x in list && x in values
    ensures NoDuplicates(list) ==> NoDuplicates(Keep(list, values))
  {
    if list != [] {
      KeepMeaning(list[1..], values);
      assert list == [list[0]] + list[1..];
      if NoDuplicates(list) {
        assert NoDuplicates(list[1..]);
        assert list[0] !in list[1..];
      }
    }
  }

  lemma {:induction false} AddEachMeaning(s: Scopes, p: Prop, values: seq<Origin>)
    requires Ok(s) && All !in values
    ensures Ok(AddEach(s, p, values))
    ensures List(s, p) == [All] ==> List(AddEach(s, p, values), p) == [All]
    ensures List(s, p) != [All] ==>
              forall x :: x in List(AddEach(s, p, values), p) <==> x in List(s, p) || x in values
    decreases |values|
  {
    if values != [] {
      var most, last := values[..|values| - 1], values[|values| - 1];
      assert values == most + [last];
      AddEachMeaning(s, p, most);
      AddKeepsOk(AddEach(s, p, most), p, last);
      if List(s, p) != [All] {
        assert All !in List(s, p) && All !in most;
      }
    }
  }

  lemma {:induction false} AddEachKeepsOk(s: Scopes, p: Prop, values: seq<Origin>)
    requires Ok(s)
    ensures Ok(AddEach(s, p, values))
    decreases |values|
  {
    if values != [] {
      AddEachKeepsOk(s, p, values[..|values| - 1]);
      AddKeepsOk(AddEach(s, p, values[..|values| - 1]), p, values[|values| - 1]);
    }
  }

  /** A list that an addition changes becomes "all" or longer. */
  lemma AddGrows(s: Scopes, p: Prop, o: Origin)
    ensures var list, t := List(s, p), List(Add(s, p, o), p);
            t == list || (list != [All] && (t == [All] || |t| == |list| + 1))
  {
  }

  lemma {:induction false} AddEachOnly(s: Scopes, p: Prop, values: seq<Origin>)
    ensures forall x :: x in List(AddEach(s, p, values), p) ==> x in List(s, p) || x in values
    decreases |values|
  {
    if values != [] {
      var most, last := values[..|values| - 1], values[|values| - 1];
      assert values == most + [last];
      AddEachOnly(s, p, most);
      var list := List(AddEach(s, p, most), p);
      assert List(AddEach(s, p, values), p) in {list, [All], list + [last]};
    }
  }

  /** Any assignment keeps the lists in order, even one that names "all" behind the first position. */
  lemma ReplaceKeepsOk(s: Scopes, p: Prop, values: seq<Origin>)
    requires Ok(s)
    ensures Ok(Replace(s, p, values))
  {
    var list := List(s, p);
    KeepMeaning(list, values);
    if list == [All] {
      AddEachKeepsOk(s, p, values);
    } else {
      AddEachKeepsOk(SetList(s, p, Keep(list, values)), p, values);
    }
  }

  /** Assigning named devices to a list makes it hold exactly those, unless it said "all": then the
      assignment is lost. */
  lemma ReplaceMeaning(s: Scopes, p: Prop, values: seq<Origin>)
    requires Ok(s) && All !in values && values != []
    ensures Ok(Replace(s, p, values))
    ensures (forall x :: x in List(Replace(s, p, values), p) <==> x in values) <==> List(s, p) != [All]
    ensures List(s, p) == [All] ==> List(Replace(s, p, values), p) == [All]
  {
    var list := List(s, p);
    if list == [All] {
      AddEachMeaning(s, p, values);
      assert All in [All];
    } else {
      KeepMeaning(list, values);
      AddEachMeaning(SetList(s, p, Keep(list, values)), p, values);
    }
  }

  // ---------- the record updated in place ----------

  class ScopeLists {
    var allow: seq<Origin>
    var block: seq<Origin>

    ghost function Value(): Scopes
      reads this
    {
      Scopes(allow, block)
    }

    /** By default every origin is allowed and none is blocked. */
    constructor ()
      ensures Ok(Value()) && forall d: DeviceId :: HasScope(Value(), d)
    {
      allow, block := [All], [];
      assert All in [All];
    }

    /** Does the map forward updates that originate at device d? */
    method Admits(d: DeviceId) returns (ok: bool)
      requires Ok(Value())
      ensures ok == HasScope(Value(), d)
    {
      var i := 0;
      while i < |allow|
        invariant i <= |allow| && All !in allow[..i] && Device(d) !in allow[..i]
      {
        if allow[i] == All {
          i := 0;
          while i < |block|
            invariant i <= |block| && Device(d) !in block[..i]
          {
            if block[i] == Device(d) {
              return false;
            }
            i := i + 1;
          }
          return true;
        }
        if allow[i] == Device(d) {
          return true;
        }
        i := i + 1;
      }
      ok := false;
    }

    method Store(p: Prop, list: seq<Origin>)
      modifies this
      ensures Value() == SetList(old(Value()), p, list)
    {
      if p == Allow { allow := list; } else { block := list; }
    }

    method RemoveScope(p: Prop, o: Origin) returns (updated: bool)
      modifies this
      ensures Value() == Remove(old(Value()), p, o)
      ensures updated <==> Value() != old(Value())
    {
      var scope := if p == Allow then allow else block;
      updated := false;
      if |scope| == 0 {
        // nothing to remove
      } else if o == All {
        Store(p, []);
        updated := true;
      } else if scope == [All] {
        // a named device cannot be taken out of "all"
      } else {
        var i := 0;
        while i < |scope| && scope[i] != o
          invariant 0 <= i <= |scope| && Find(scope, o, i) == Find(scope, o)
        {
          i := i + 1;
        }
        if i < |scope| {
          scope := DropEntry(scope, i);
          Store(p, scope);
          updated := true;
        }
      }
    }

    /** Shift the later entries down and shorten the list. */
    static method DropEntry(list: seq<Origin>, i: nat) returns (scope: seq<Origin>)
      requires i < |list|
      ensures scope == list[..i] + list[i + 1..]
    {
      scope := list;
      var k := i;
      while k < |scope| - 1
        invariant i <= k < |scope| == |list|
        invariant forall j :: 0 <= j < i ==> scope[j] == list[j]
        invariant forall j :: i <= j < k ==> scope[j] == list[j + 1]
        invariant forall j :: k <= j < |list| ==> scope[j] == list[j]
      {
        scope := scope[k := scope[k + 1]];
        k := k + 1;
      }
      scope := scope[..|scope| - 1];
    }

    method AddScope(p: Prop, o: Origin) returns (updated: bool)
      modifies this
      ensures Value() == Add(old(Value()), p, o)
      ensures updated <==> List(Value(), p) != List(old(Value()), p)
    {
      var scope := if p == Allow then allow else block;
      updated := false;
      if scope == [All] {
        if o != All {
          var _ := RemoveScope(Other(p), o);
        }
      } else if o == All {
        Store(p, [All]);
        updated := true;
      } else {
        var i := 0;
        while i < |scope| && scope[i] != o
          invariant 0 <= i <= |scope| && o !in scope[..i]
        {
          i := i + 1;
        }
        if i >= |scope| {
          Store(p, scope + [o]);
          updated := true;
        }
        var _ := RemoveScope(Other(p), o);
      }
    }

    /** Replace a list by the given values; a leading "all" or "none" stands for the whole list. */
    method UpdateScope(p: Prop, none: bool, values: seq<Origin>) returns (updated: nat)
      requires Ok(Value()) && values != []
      modifies this
      ensures Value() == if values[0] == All then Add(old(Value()), p, All)
                         else if none then Remove(old(Value()), p, All)
                         else Replace(old(Value()), p, values)
      ensures updated > 0 <==> List(Value(), p) != List(old(Value()), p)
    {
      hide Ok, Add, AddEach, Keep;
      updated := 0;
      if values[0] == All {
        var u := AddScope(p, All);
        return if u then 1 else 0;
      }
      if none {
        var u := RemoveScope(p, All);
        return if u then 1 else 0;
      }
      var scope := if p == Allow then allow else block;
      if scope != [All] {
        updated := RemoveMissing(p, values);
        KeepMeaning(scope, values);
        AddEachOnly(Value(), p, values);
      }
      var added := AddAll(p, values);
      updated := updated + added;
    }

    method AddAll(p: Prop, values: seq<Origin>) returns (updated: nat)
      modifies this
      ensures Value() == AddEach(old(Value()), p, values)
      ensures updated > 0 <==> List(Value(), p) != List(old(Value()), p)
    {
      hide Add;
      updated := 0;
      for i := 0 to |values|
        invariant Value() == AddEach(old(Value()), p, values[..i])
        invariant var was, list := List(old(Value()), p), List(Value(), p);
                  if updated == 0 then list == was else was != [All] && (list == [All] || |list| > |was|)
      {
        AddGrows(Value(), p, values[i]);
        var u := AddScope(p, values[i]);
        assert values[..i + 1][..i] == values[..i];
        updated := updated + if u then 1 else 0;
      }
      assert values[..|values|] == values;
    }

    method RemoveMissing(p: Prop, values: seq<Origin>) returns (updated: nat)
      requires Ok(Value()) && List(Value(), p) != [All]
      modifies this
      ensures Value() == SetList(old(Value()), p, Keep(List(old(Value()), p), values))
      ensures updated == 0 ==> Value() == old(Value())
      ensures updated > 0 ==> exists x :: x in List(old(Value()), p) && x !in values
    {
      hide Keep, Without, Ok, NoDuplicates, RemoveFrom;
      OkList(Value(), p);
      updated := 0;
      var i := 0;
      ghost var was := Value();
      var scope := if p == Allow then allow else block;
      assert scope[..0] + Keep(scope[0..], values) == Keep(scope, values) by { assert scope[0..] == scope; }
      while i < |scope|
        invariant scope == List(Value(), p) && NoDuplicates(scope) && All !in scope
        invariant Ok(Value()) && Value() == SetList(was, p, scope)
        invariant i <= |scope|
        invariant scope[..i] + Keep(scope[i..], values) == Keep(List(was, p), values)
        invariant updated == 0 ==> Value() == was
        invariant forall x :: x in scope ==> x in List(was, p)
        invariant updated > 0 ==> exists x :: x in List(was, p) && x !in values
        decreases |scope| - i
      {
        var o := scope[i];
        KeepStep(scope, values, i);
        if o !in values {
          RemoveKeepsOk(Value(), p, o);
          RemoveNamed(scope, o);
          var u := RemoveScope(p, o);
          OkList(Value(), p);
          updated := updated + if u then 1 else 0;
          scope := if p == Allow then allow else block;
        } else {
          i := i + 1;
        }
      }
      KeepNone(values);
      assert scope[..i] == scope && scope[i..] == [] && scope + [] == scope;
    }
  }

  lemma OkList(s: Scopes, p: Prop)
    requires Ok(s)
    ensures NoDuplicates(List(s, p)) && (All in List(s, p) ==> List(s, p) == [All])
  {
  }

  lemma RemoveNamed(list: seq<Origin>, o: Origin)
    requires NoDuplicates(list) && All !in list && o in list
    ensures RemoveFrom(list, o) == Without(list, o) && All !in Without(list, o)
  {
    WithoutMeaning(list, o);
  }

  lemma KeepNone(values: seq<Origin>)
    ensures Keep([], values) == []
  {
  }

  /** One step of the removal loop: an element that is not among the values goes, any other is kept. */
  lemma KeepStep(list: seq<Origin>, values: seq<Origin>, i: nat)
    requires NoDuplicates(list) && i < |list|
    ensures list[i] !in values ==>
              var shorter := Without(list, list[i]);
              && |shorter| == |list| - 1
              && shorter[..i] + Keep(shorter[i..], values) == list[..i] + Keep(list[i..], values)
    ensures list[i] in values ==> list[..i + 1] + Keep(list[i + 1..], values) == list[..i] + Keep(list[i..], values)
  {
    RemovesAt(list, i);
    assert list[i..][1..] == list[i + 1..];
    var shorter := list[..i] + list[i + 1..];
    assert shorter[..i] == list[..i] && shorter[i..] == list[i + 1..];
    assert list[..i + 1] == list[..i] + [list[i]];
  }

  /** In a list without duplicates the element at position i is taken out at position i. */
  lemma RemovesAt(list: seq<Origin>, i: nat)
    requires NoDuplicates(list) && i < |list|
    ensures Without(list, list[i]) == list[..i] + list[i + 1..]
  {
    var k := Find(list, list[i]);
    assert list[i] in list[0..];
  }
}
