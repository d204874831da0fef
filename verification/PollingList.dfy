/**
 The list of Redfish APIs that a device is polled for (svc-device-manager/collect_data.go).
 A list is a Go slice: a backing array and a length.  `SendDeviceList` gives every device the
 slice of the package variable `redfishResources`, appending beyond the capacity allocates a
 new array, and removing shifts the rest of the list in place.
 */
module PollingList {

  // ---------------------------------------------------------------- lists as values

  /** `addSlashToTail`; it panics on the empty text. */
  function Slash(s: string): (r: string)
    requires s != ""
    ensures r != "" && r[|r| - 1] == '/'
  {
    if s[|s| - 1] == '/' then s else s + "/"
  }

  /** The text is kept, and nothing but a missing slash is added. */
  lemma SlashText(s: string)
    requires s != ""
    ensures Slash(s)[..|s|] == s && (Slash(s) == s <==> s[|s| - 1] == '/') && (Slash(s) != s ==> |Slash(s)| == |s| + 1)
  {
  }

  predicate NonEmpty(list: seq<string>) { forall i :: 0 <= i < |list| ==> list[i] != "" }

  /** Position of the first entry that is the API up to a trailing slash, or -1. */
  function Find(list: seq<string>, api: string): (k: int)
    requires NonEmpty(list) && api != ""
    ensures -1 <= k < |list|
    ensures k >= 0 ==> Slash(list[k]) == Slash(api)
    ensures forall i :: 0 <= i < (if k < 0 then |list| else k) ==> Slash(list[i]) != Slash(api)
  {
    if list == [] then -1
    else if Slash(list[0]) == Slash(api) then 0
    else
      var k := Find(list[1..], api);
      assert forall i :: 0 < i < |list| ==> list[i] == list[1..][i - 1];
      if k < 0 then -1 else k + 1
  }

  /** Entries are not empty and differ by more than a trailing slash. */
  ghost predicate Proper(list: seq<string>) {
    NonEmpty(list) && forall i, j :: 0 <= i < j < |list| ==> Slash(list[i]) != Slash(list[j])
  }

  function Without(list: seq<string>, k: nat): seq<string>
    requires k < |list|
  {
    list[..k] + list[k + 1..]
  }

  /** The list after a request to add; `known` tells whether the device has the API. */
  function Added(list: seq<string>, api: string, known: bool): seq<string>
    requires NonEmpty(list)
  {
    if api == "" || !known || Find(list, api) >= 0 then list else list + [Slash(api)]
  }

  function Removed(list: seq<string>, api: string): seq<string>
    requires NonEmpty(list)
  {
    if api == "" || Find(list, api) < 0 then list else Without(list, Find(list, api))
  }

  lemma SlashTwice(s: string)
    requires s != ""
    ensures Slash(Slash(s)) == Slash(s)
  {
  }

  lemma AddedProper(list: seq<string>, api: string, known: bool)
    requires Proper(list)
    ensures Proper(Added(list, api, known))
  {
    hide Slash, Find;
    if api != "" { SlashTwice(api); }
  }

  lemma RemovedProper(list: seq<string>, api: string)
    requires Proper(list)
    ensures Proper(Removed(list, api))
  {
    hide Slash, Find;
    if api != "" && Find(list, api) >= 0 {
      var k, l := Find(list, api), Removed(list, api);
      assert forall i :: 0 <= i < |l| ==> l[i] == list[if i < k then i else i + 1];
    }
  }

  /** Adding an API and removing it again restores the list. */
  lemma AddThenRemove(list: seq<string>, api: string)
    requires Proper(list) && api != "" && Find(list, api) < 0
    ensures Proper(Added(list, api, true)) && Removed(Added(list, api, true), api) == list
  {
    AddedProper(list, api, true);
    SlashTwice(api);
    var l := Added(list, api, true);
    var k := Find(l, api);
    assert l[|list|] == Slash(api);
    assert forall i :: 0 <= i < |list| ==> l[i] == list[i];
    assert k == |list|;
  }

  datatype Op = Add(api: string, known: bool) | Remove(api: string) | Clear

  function Apply(list: seq<string>, op: Op): seq<string>
    requires NonEmpty(list)
  {
    match op
    case Add(api, known) => Added(list, api, known)
    case Remove(api) => Removed(list, api)
    case Clear => []
  }

  lemma StepProper(list: seq<string>, op: Op)
    requires Proper(list)
    ensures Proper(Apply(list, op))
  {
    match op {
      case Add(api, known) => AddedProper(list, api, known);
      case Remove(api) => RemovedProper(list, api);
      case Clear =>
    }
  }

  /** The list at the end of a run. */
  ghost function Final(list: seq<string>, ops: seq<Op>): seq<string>
    requires Proper(list)
    decreases |ops|
  {
    if ops == [] then list else StepProper(list, ops[0]); Final(Apply(list, ops[0]), ops[1..])
  }

  ghost predicate ProperRun(list: seq<string>, ops: seq<Op>)
    decreases |ops|
  {
    Proper(list) && (ops != [] ==> ProperRun(Apply(list, ops[0]), ops[1..]))
  }

  /** Every run keeps the entries non-empty and distinct. */
  lemma {:induction false} RunProper(list: seq<string>, ops: seq<Op>)
    requires Proper(list)
    ensures ProperRun(list, ops)
    decreases |ops|
  {
    if ops != [] {
      StepProper(list, ops[0]);
      RunProper(Apply(list, ops[0]), ops[1..]);
    }
  }

  // ---------------------------------------------------------------- lists as slices

  /** A slice that starts at the beginning of its array; the capacity is the array's length. */
  datatype Slice = Slice(a: array<string>, len: nat)

  /** The array after `append(list[:k], list[k+1:]...)` on a slice of length `len`. */
  function Shifted(a: seq<string>, k: nat, len: nat): seq<string>
    requires k < len <= |a|
  {
    a[..k] + a[k + 1..len] + a[len - 1..]
  }

  class Server {
    var resources: Slice             // redfishResources
    var devices: map<string, Slice>  // RfAPIList of each device

    ghost function Arrays(): set<object>
      reads this
    {
      {resources.a} + set ip | ip in devices :: devices[ip].a
    }

    ghost predicate Valid()
      reads this, Arrays()
    {
      resources.len <= resources.a.Length && forall ip :: ip in devices ==> devices[ip].len <= devices[ip].a.Length
    }

    ghost function List(ip: string): seq<string>
      requires Valid() && ip in devices
      reads this, Arrays()
    {
      devices[ip].a[..devices[ip].len]
    }

    /** No other list uses the array of this device's list. */
    ghost predicate Unshared(ip: string)
      requires ip in devices
      reads this
    {
      devices[ip].a != resources.a && forall e :: e in devices && e != ip ==> devices[e].a != devices[ip].a
    }

    /** Registration hands out the shared slice. */
    method Register(ip: string)
      requires Valid() && ip !in devices
      modifies this`devices
      ensures Valid() && devices == old(devices)[ip := resources]
      ensures List(ip) == resources.a[..resources.len]
    {
      devices := devices[ip := resources];
    }

    /** All other lists are as before. */
    twostate predicate OthersKept(ip: string)
      requires Valid() && old(Valid())
      reads this, Arrays()
    {
      && resources == old(resources) && resources.a[..resources.len] == old(resources.a[..resources.len])
      && devices.Keys == old(devices).Keys
      && forall e :: e in devices && e != ip ==> devices[e] == old(devices)[e] && List(e) == old(List(e))
    }

    /** On a list of its own array, adding changes this list only; a list that shares its array
        with others leaves it when the array is full. */
    method AddPollingRfAPI(ip: string, rfAPI: string, known: bool) returns (ok: bool)
      requires Valid() && ip in devices && NonEmpty(List(ip))
      modifies this`devices, devices[ip].a
      ensures Valid() && ip in devices && List(ip) == Added(old(List(ip)), rfAPI, known)
      ensures ok <==> rfAPI != "" && known && Find(old(List(ip)), rfAPI) < 0
      ensures List(ip) == if ok then old(List(ip)) + [Slash(rfAPI)] else old(List(ip))
      ensures old(Unshared(ip)) || old(devices[ip].len == devices[ip].a.Length) ==> OthersKept(ip)
      ensures old(Unshared(ip)) || (ok && old(devices[ip].len == devices[ip].a.Length)) ==> Unshared(ip)
      ensures devices[ip].a == old(devices[ip].a) || fresh(devices[ip].a)
      ensures ok && old(devices[ip].len < devices[ip].a.Length) ==>
                && devices[ip].a == old(devices[ip].a)
                && devices[ip].a[..] == old(devices[ip].a[..])[old(devices[ip].len) := Slash(rfAPI)]
    {
      if rfAPI == "" || !known {
        return false;
      }
      var api := Slash(rfAPI);
      var s := devices[ip];
      var k := FindEntry(s, rfAPI);
      if k >= 0 {
        return false;
      }
      var t := AppendTo(s, api);
      devices := devices[ip := t];
      ok := true;
    }

    /** Shifts in place: every list over the same array sees the shift. */
    method RemovePollingRfAPI(ip: string, rfAPI: string) returns (ok: bool)
      requires Valid() && ip in devices && NonEmpty(List(ip))
      modifies this`devices, devices[ip].a
      ensures Valid() && ip in devices && List(ip) == Removed(old(List(ip)), rfAPI)
      ensures ok <==> rfAPI != "" && Find(old(List(ip)), rfAPI) >= 0
      ensures ok ==> exists k :: 0 <= k < |old(List(ip))| && Slash(old(List(ip))[k]) == Slash(rfAPI)
                       && List(ip) == old(List(ip))[..k] + old(List(ip))[k + 1..]
      ensures !ok ==> List(ip) == old(List(ip))
      ensures !ok || old(Unshared(ip)) ==> OthersKept(ip)
      ensures old(Unshared(ip)) ==> Unshared(ip)
      ensures devices[ip].a == old(devices[ip].a)
      ensures ok ==> devices[ip].a[..] == Shifted(old(devices[ip].a[..]), Find(old(List(ip)), rfAPI), old(devices[ip].len))
    {
      if rfAPI == "" {
        return false;
      }
      var s := devices[ip];
      var k := FindEntry(s, rfAPI);
      if k < 0 {
        return false;
      }
      ShiftedPrefix(s.a[..], k, s.len);
      ShiftFrom(s.a, k, s.len);
      devices := devices[ip := Slice(s.a, s.len - 1)];
      ok := true;
    }

    method ClearPollingRfAPI(ip: string)
      requires Valid() && ip in devices
      modifies this`devices
      ensures Valid() && ip in devices && List(ip) == [] && OthersKept(ip) && Unshared(ip)
      ensures fresh(devices[ip].a)
    {
      var empty := new string[0];
      devices := devices[ip := Slice(empty, 0)];
    }

    /** A run of requests for a device with an array of its own: its list follows the list of
        values and stays proper, and no other list changes. */
    method Serve(ip: string, ops: seq<Op>)
      requires Valid() && ip in devices && Proper(List(ip)) && Unshared(ip)
      modifies this`devices, devices[ip].a
      ensures Valid() && ip in devices && Unshared(ip) && OthersKept(ip)
      ensures ProperRun(old(List(ip)), ops) && List(ip) == Final(old(List(ip)), ops)
    {
      RunProper(List(ip), ops);
      assert ops[0..] == ops;
      for i := 0 to |ops|
        invariant Valid() && ip in devices && Unshared(ip) && OthersKept(ip)
        invariant devices[ip].a == old(devices[ip].a) || fresh(devices[ip].a)
        invariant Proper(List(ip)) && Final(List(ip), ops[i..]) == Final(old(List(ip)), ops)
      {
        StepProper(List(ip), ops[i]);
        assert ops[i..][0] == ops[i] && ops[i..][1..] == ops[i + 1..];
        match ops[i] {
          case Add(api, known) => var _ := AddPollingRfAPI(ip, api, known);
          case Remove(api) => var _ := RemovePollingRfAPI(ip, api);
          case Clear => ClearPollingRfAPI(ip);
        }
      }
    }
  }

  method FindEntry(s: Slice, rfAPI: string) returns (k: int)
    requires s.len <= s.a.Length && NonEmpty(s.a[..s.len]) && rfAPI != ""
    ensures k == Find(s.a[..s.len], rfAPI)
  {
    hide Slash, Find;
    ghost var list := s.a[..s.len];
    var api := Slash(rfAPI);
    for i := 0 to s.len
      invariant forall j :: 0 <= j < i ==> Slash(list[j]) != api
    {
      assert s.a[i] == list[i];
      if Slash(s.a[i]) == api {
        return i;
      }
    }
    k := -1;
  }

  /** `append(list, x)`: into spare capacity, or everything into a new array. */
  method AppendTo(s: Slice, x: string) returns (t: Slice)
    requires s.len <= s.a.Length
    modifies s.a
    ensures t.len == s.len + 1 <= t.a.Length && t.a[..t.len] == old(s.a[..s.len]) + [x]
    ensures s.len < s.a.Length ==> t.a == s.a && s.a[..] == old(s.a[..])[s.len := x]
    ensures s.len == s.a.Length ==> fresh(t.a) && s.a[..] == old(s.a[..])
  {
    if s.len < s.a.Length {
      s.a[s.len] := x;
      t := Slice(s.a, s.len + 1);
    } else {
      var b := new string[2 * s.len + 1](_ => "");
      for i := 0 to s.len
        invariant b[..i] == s.a[..i] && s.a[..] == old(s.a[..])
      {
        b[i] := s.a[i];
      }
      b[s.len] := x;
      t := Slice(b, s.len + 1);
    }
  }

  /** The memmove of the in-place append. */
  method ShiftFrom(a: array<string>, k: nat, len: nat)
    requires k < len <= a.Length
    modifies a
    ensures a[..] == Shifted(old(a[..]), k, len)
  {
    ghost var o := a[..];
    var i := k;
    while i + 1 < len
      invariant k <= i < len
      invariant forall j :: k <= j < i ==> a[j] == o[j + 1]
      invariant forall j :: 0 <= j < k ==> a[j] == o[j]
      invariant forall j :: i <= j < a.Length ==> a[j] == o[j]
    {
      a[i] := a[i + 1];
      i := i + 1;
    }
    ghost var b := Shifted(o, k, len);
    assert forall j :: 0 <= j < a.Length ==> a[j] == b[j];
  }

  lemma ShiftedPrefix(a: seq<string>, k: nat, len: nat)
    requires k < len <= |a|
    ensures Shifted(a, k, len)[..len - 1] == Without(a[..len], k)
  {
  }

  // ---------------------------------------------------------------- sharing

  /** What a list of length `n` over the shared array looks like after another list of length
      `len` over it had entry `k` removed: it is unchanged if and only if every entry it shows
      from `k` on, up to the end of that list, equals the next. */
  lemma SharedRemoval(a: seq<string>, k: nat, len: nat, n: nat)
    requires k < len <= |a| && n <= |a|
    ensures Shifted(a, k, len)[..n] == a[..n] <==> forall i :: k <= i < n && i + 1 < len ==> a[i] == a[i + 1]
  {
    var b := Shifted(a, k, len);
    forall i | 0 <= i < |a| ensures b[i] == if k <= i && i + 1 < len then a[i + 1] else a[i] {
    }
    if b[..n] == a[..n] {
      forall i | k <= i < n && i + 1 < len ensures a[i] == a[i + 1] {
        assert b[..n][i] == a[..n][i];
      }
    }
  }

  /** When the removing list is proper: if and only if the other ends before `k` or the last entry
      was removed. */
  lemma SharedRemovalProper(a: seq<string>, k: nat, len: nat, n: nat)
    requires k < len <= |a| && n <= |a| && Proper(a[..len])
    ensures Shifted(a, k, len)[..n] == a[..n] <==> n <= k || k + 1 == len
  {
    SharedRemoval(a, k, len, n);
    if n > k && k + 1 < len {
      assert a[..len][k] == a[k] && a[..len][k + 1] == a[k + 1];
    }
  }

  /** What a list of length `n` over the shared array looks like after another list of length
      `len` over it had an entry added in the spare capacity: it is unchanged if and only if it
      is no longer than that list, or showed the same entry there already. */
  lemma SharedAdd(a: seq<string>, len: nat, x: string, n: nat)
    requires len < |a| && n <= |a|
    ensures a[len := x][..n] == a[..n] <==> n <= len || a[len] == x
  {
    if n > len {
      assert a[len := x][..n][len] == x && a[..n][len] == a[len];
    }
  }

  /** One device removes an API from the default list and adds another: every list that still
      shows the whole default array then ends with the new API instead of its own last one. */
  lemma SharedRemoveThenAdd(a: seq<string>, k: nat, x: string)
    requires k < |a|
    ensures Shifted(a, k, |a|)[|a| - 1 := x] == Without(a, k) + [x]
  {
  }

  /** After such a removal the shared default list names its last API twice: devices
      registered later start with a list that is not proper. */
  lemma SharedRemovalDuplicates(a: seq<string>, k: nat)
    requires k + 1 < |a| && Proper(a)
    ensures !Proper(Shifted(a, k, |a|))
  {
    var b := Shifted(a, k, |a|);
    assert b[|a| - 2] == a[|a| - 1] == b[|a| - 1];
  }
}
