/** Per-address lists of connected clients, kept in slices that registration appends to and
    disconnection shifts in place while ranging over them (ws/orders.go:26-74,
    ws/deposit.go:27-74, ws/main.go:3-13). */
module Connections {
  type Client = nat
  type Address = nat

  predicate NoDuplicates(cs: seq<Client>) {
    forall i, j :: 0 <= i < j < |cs| ==> cs[i] != cs[j]
  }

  /** The list without any occurrence of a client. */
  function Without(cs: seq<Client>, c: Client): seq<Client> {
    if cs == [] then []
    else if cs[0] == c then Without(cs[1..], c)
    else [cs[0]] + Without(cs[1..], c)
  }

  lemma {:induction false} WithoutAbsent(cs: seq<Client>, c: Client)
    requires c !in cs
    ensures Without(cs, c) == cs
  {
    if cs != [] {
      WithoutAbsent(cs[1..], c);
    }
  }

  lemma {:induction false} WithoutOnce(cs: seq<Client>, c: Client, i: nat)
    requires i < |cs| && cs[i] == c && NoDuplicates(cs)
    ensures Without(cs, c) == cs[..i] + cs[i + 1..]
  {
    if i == 0 {
      WithoutAbsent(cs[1..], c);
    } else {
      WithoutOnce(cs[1..], c, i - 1);
      assert cs[..i] == [cs[0]] + cs[1..][..i - 1];
      assert cs[1..][i - 1 + 1..] == cs[i + 1..];
    }
  }

  lemma {:induction false} WithoutKeeps(cs: seq<Client>, c: Client)
    ensures forall x :: x in Without(cs, c) <==> x in cs && x != c
    ensures NoDuplicates(cs) ==> NoDuplicates(Without(cs, c))
  {
    if cs != [] {
      WithoutKeeps(cs[1..], c);
      assert NoDuplicates(cs) ==> NoDuplicates(cs[1..]) && cs[0] !in cs[1..];
      assert cs[0] !in cs[1..] ==> cs[0] !in Without(cs[1..], c);
    }
  }

  /** The removal loop. The range is over the original length and reads the backing array as it
      is by then; `length` is the length of the shrinking slice; slicing past it panics. */
  method RemoveInPlace(data: array<Client>, n: nat, c: Client) returns (length: nat, panicked: bool)
    requires n <= data.Length
    modifies data
    ensures NoDuplicates(old(data[..n])) ==>
              !panicked && length <= n && data[..length] == Without(old(data[..n]), c)
  {
    length, panicked := n, false;
    ghost var cs := data[..n];
    ghost var unique := NoDuplicates(cs);
    ghost var at: int := -1;
    var i := 0;
    while i < n
      invariant 0 <= i <= n && length <= n
      invariant unique && at == -1 ==> length == n && data[..n] == cs && c !in cs[..i]
      invariant unique && at != -1 ==> 0 <= at < i && cs[at] == c && length == n - 1
      invariant unique && at != -1 ==> data[..n - 1] == cs[..at] + cs[at + 1..] && data[n - 1] == cs[n - 1]
    {
      if data[i] == c {
        if i + 1 > length {
          panicked := true;
          UniqueElsewhere(cs, c, at, i, data[..n]);
          return;
        }
        assert unique ==> at == -1 by {
          UniqueElsewhere(cs, c, at, i, data[..n]);
        }
        forall k | i <= k < length - 1 {
          data[k] := data[k + 1];
        }
        length := length - 1;
        at := i;
      }
      i := i + 1;
    }
    if unique {
      if at == -1 {
        WithoutAbsent(cs, c);
      } else {
        WithoutOnce(cs, c, at);
      }
    }
  }

  /** Once the only occurrence is gone, no later position of the shifted array shows the client. */
  lemma UniqueElsewhere(cs: seq<Client>, c: Client, at: int, i: nat, data: seq<Client>)
    requires i < |cs| == |data|
    ensures NoDuplicates(cs) && 0 <= at < i && cs[at] == c
            && data[..|cs| - 1] == cs[..at] + cs[at + 1..] && data[|cs| - 1] == cs[|cs| - 1]
            ==> data[i] != c
  {
    if NoDuplicates(cs) && 0 <= at < i && cs[at] == c
       && data[..|cs| - 1] == cs[..at] + cs[at + 1..] && data[|cs| - 1] == cs[|cs| - 1] {
      if i < |cs| - 1 {
        assert data[i] == data[..|cs| - 1][i] == cs[i + 1];
      }
    }
  }

  // ---- the table over a run ----

  /** What the table holds: the clients of each address, in order of registration. */
  type Table = map<Address, seq<Client>>

  datatype Event = Register(a: Address, c: Client) | Disconnect(a: Address, c: Client)

  function ClientsOf(t: Table, a: Address): seq<Client> {
    if a in t then t[a] else []
  }

  function Apply(t: Table, e: Event): Table {
    match e
    case Register(a, c) => if c in ClientsOf(t, a) then t else t[a := ClientsOf(t, a) + [c]]
    case Disconnect(a, c) => if a in t then t[a := Without(t[a], c)] else t
  }

  function After(es: seq<Event>): Table {
    if es == [] then map[] else Apply(After(es[..|es| - 1]), es[|es| - 1])
  }

  /** The last thing that happened to this client at this address is that it registered. */
  predicate LastRegistered(es: seq<Event>, a: Address, c: Client) {
    es != [] &&
    var e := es[|es| - 1];
    if e.a == a && e.c == c then e.Register? else LastRegistered(es[..|es| - 1], a, c)
  }

  /** After any events, every list is free of duplicates and holds exactly the clients whose
      last event at the address was a registration. */
  lemma {:induction false} RunConnected(es: seq<Event>, a: Address)
    ensures NoDuplicates(ClientsOf(After(es), a))
    ensures forall c :: c in ClientsOf(After(es), a) <==> LastRegistered(es, a, c)
  {
    if es != [] {
      var before, e := es[..|es| - 1], es[|es| - 1];
      RunConnected(before, a);
      if e.a == a {
        WithoutKeeps(ClientsOf(After(before), a), e.c);
      }
    }
  }

  datatype Slice = Slice(data: array<Client>, length: nat)

  /** The slice holds the list, and the list has no duplicates. */
  ghost predicate Holds(s: Slice, cs: seq<Client>)
    reads s.data
  {
    s.length <= s.data.Length && cs == s.data[..s.length] && NoDuplicates(cs)
  }

  class ConnectionTable {
    var slices: map<Address, Slice>
    ghost var contents: Table

    ghost function Footprint(): set<object>
      reads this
    {
      set a | a in slices :: slices[a].data
    }

    /** Slices are well formed, free of duplicates, and do not share backing arrays. */
    ghost predicate Valid()
      reads this, Footprint()
    {
      && contents.Keys == slices.Keys
      && (forall a :: a in slices ==> Holds(slices[a], contents[a]))
      && (forall a, b :: a in slices && b in slices && a != b ==> slices[a].data != slices[b].data)
    }

    constructor ()
      ensures Valid() && contents == map[] && Footprint() == {}
    {
      slices, contents := map[], map[];
    }

    method IsClientConnected(a: Address, c: Client) returns (connected: bool)
      requires Valid()
      ensures connected <==> c in ClientsOf(contents, a)
    {
      connected := false;
      if a in slices {
        var s := slices[a];
        var i := 0;
        while i < s.length
          invariant 0 <= i <= s.length
          invariant c !in s.data[..i]
        {
          if s.data[i] == c {
            return true;
          }
          i := i + 1;
        }
      }
    }

    /** Appending writes into spare capacity, or moves to a larger array. */
    method Append(s: Slice, c: Client) returns (s': Slice)
      requires s.length <= s.data.Length
      modifies s.data
      ensures s'.length == s.length + 1 <= s'.data.Length
      ensures s'.data[..s'.length] == old(s.data[..s.length]) + [c]
      ensures s'.data == s.data || fresh(s'.data)
    {
      if s.length < s.data.Length {
        s.data[s.length] := c;
        return Slice(s.data, s.length + 1);
      }
      var data := new Client[2 * s.length + 1];
      var i := 0;
      while i < s.length
        invariant 0 <= i <= s.length
        invariant data[..i] == s.data[..i]
        modifies data
      {
        data[i] := s.data[i];
        i := i + 1;
      }
      data[s.length] := c;
      s' := Slice(data, s.length + 1);
    }

    method AddFirst(a: Address, c: Client)
      requires Valid() && a !in slices
      modifies this
      ensures Valid() && fresh(Footprint() - old(Footprint()))
      ensures contents == old(contents)[a := [c]] && a in slices
    {
      var data := new Client[1];
      data[0] := c;
      slices, contents := slices[a := Slice(data, 1)], contents[a := [c]];
    }

    method AddAnother(a: Address, c: Client)
      requires Valid() && a in slices && c !in contents[a]
      modifies this, slices[a].data
      ensures Valid() && fresh(Footprint() - old(Footprint()))
      ensures contents == old(contents)[a := old(contents)[a] + [c]]
    {
      var s := Append(slices[a], c);
      slices, contents := slices[a := s], contents[a := contents[a] + [c]];
    }

    method RegisterConnection(a: Address, c: Client)
      requires Valid()
      modifies this, Footprint()
      ensures Valid() && fresh(Footprint() - old(Footprint()))
      ensures contents == Apply(old(contents), Register(a, c))
    {
      if a !in slices {
        AddFirst(a, c);
        assert [] + [c] == [c];
      }
      var connected := IsClientConnected(a, c);
      if !connected {
        AddAnother(a, c);
      }
    }

    method Unsubscribe(a: Address, c: Client)
      requires Valid()
      modifies this, Footprint()
      ensures Valid() && Footprint() <= old(Footprint())
      ensures contents == Apply(old(contents), Disconnect(a, c))
    {
      if a in slices {
        var s := slices[a];
        var length, panicked := RemoveInPlace(s.data, s.length, c);
        WithoutKeeps(contents[a], c);
        slices, contents := slices[a := Slice(s.data, length)], contents[a := Without(contents[a], c)];
      }
    }
  }
}
