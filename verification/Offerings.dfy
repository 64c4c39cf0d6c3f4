/** The cache of unavailable offerings (pkg/providers/offerings/unavailableofferings/cache.go). */
module Offerings {
  import opened Basics

  const SPOT := "spot"
  const ON_DEMAND := "on-demand"

  const DEFAULT_TTL := 30 * 60 * SECONDS

  datatype Offered = Offered(instanceType: string, zone: string, capacityType: string)

  /** When a cache entry stops being found: never, or after a time. */
  datatype Expiry = Never | After(time: int)

  type Marks = map<Offered, Expiry>

  /** go-cache's Set: zero asks for the default lifetime, a negative one never expires. */
  function Expires(ttl: int, now: int): Expiry {
    if ttl > 0 then After(now + ttl) else if ttl == 0 then After(now + DEFAULT_TTL) else Never
  }

  predicate Unavailable(marks: Marks, o: Offered, now: int) {
    o in marks && (marks[o].Never? || now <= marks[o].time)
  }

  /** Being available lasts until the offering is marked again. */
  lemma AvailableStaysAvailable(marks: Marks, o: Offered, now: int, later: int)
    requires !Unavailable(marks, o, now) && now <= later
    ensures !Unavailable(marks, o, later)
  {
  }

  /** The string under which the cache files an offering. */
  function Key(o: Offered): string {
    o.capacityType + ":" + o.instanceType + ":" + o.zone
  }

  function UpToColon(s: string): (n: nat)
    ensures n <= |s|
    ensures ':' !in s[..n]
    ensures n < |s| ==> s[n] == ':'
  {
    if s == "" || s[0] == ':' then 0
    else
      var n := UpToColon(s[1..]);
      assert s[..n + 1] == [s[0]] + s[1..][..n];
      n + 1
  }

  lemma {:induction false} UpToColonOf(a: string, b: string)
    requires ':' !in a
    ensures UpToColon(a + ":" + b) == |a|
  {
    if a != "" {
      assert (a + ":" + b)[1..] == a[1..] + ":" + b;
      UpToColonOf(a[1..], b);
    }
  }

  lemma ColonSplits(a: string, b: string, a': string, b': string)
    requires ':' !in a && ':' !in a' && a + ":" + b == a' + ":" + b'
    ensures a == a' && b == b'
  {
    UpToColonOf(a, b);
    UpToColonOf(a', b');
    var s := a + ":" + b;
    assert s[..|a|] == a && s[..|a|] == a' && s[|a| + 1..] == b && s[|a| + 1..] == b';
  }

  /** Distinct offerings never share a key, provided capacity types and machine names hold no colon (zones may). */
  lemma KeyIsInjective(o: Offered, o': Offered)
    requires ':' !in o.capacityType && ':' !in o'.capacityType && ':' !in o.instanceType && ':' !in o'.instanceType
    requires Key(o) == Key(o')
    ensures o == o'
  {
    assert Key(o) == o.capacityType + ":" + (o.instanceType + ":" + o.zone);
    assert Key(o') == o'.capacityType + ":" + (o'.instanceType + ":" + o'.zone);
    ColonSplits(o.capacityType, o.instanceType + ":" + o.zone, o'.capacityType, o'.instanceType + ":" + o'.zone);
    ColonSplits(o.instanceType, o.zone, o'.instanceType, o'.zone);
  }

  /** The condition is needed: a colon in a machine name can make two offerings indistinguishable. */
  lemma ColonsCollide(capacityType: string)
    ensures Key(Offered("a:b", "c", capacityType)) == Key(Offered("a", "b:c", capacityType))
  {
    assert capacityType + ":" + "a:b" + ":" + "c" == capacityType + ":" + "a" + ":" + "b:c";
  }

  predicate PlainNames(o: Offered) {
    ':' !in o.capacityType && ':' !in o.instanceType
  }

  /** The string-keyed entries stand for exactly these marks. */
  ghost predicate Files(entries: map<string, Expiry>, marks: Marks) {
    && (forall o | o in marks :: PlainNames(o) && Key(o) in entries && entries[Key(o)] == marks[o])
    && (forall k | k in entries :: exists o :: o in marks && Key(o) == k)
  }

  lemma MarkFiles(entries: map<string, Expiry>, marks: Marks, o: Offered, e: Expiry)
    requires Files(entries, marks) && PlainNames(o)
    ensures Files(entries[Key(o) := e], marks[o := e])
  {
    var entries', marks' := entries[Key(o) := e], marks[o := e];
    forall p | p in marks'
      ensures PlainNames(p) && Key(p) in entries' && entries'[Key(p)] == marks'[p]
    {
      if p != o && Key(p) == Key(o) { KeyIsInjective(p, o); }
    }
    forall k | k in entries'
      ensures exists p :: p in marks' && Key(p) == k
    {
      if k == Key(o) {
        assert o in marks' && Key(o) == k;
      } else {
        var p :| p in marks && Key(p) == k;
        assert p in marks' && Key(p) == k;
      }
    }
  }

  lemma KeysStayApart(marks: Marks)
    requires forall o | o in marks :: PlainNames(o)
    ensures forall o, o' | o in marks && o' in marks && Key(o) == Key(o') :: o == o'
  {
    forall o, o' | o in marks && o' in marks && Key(o) == Key(o')
      ensures o == o'
    {
      KeyIsInjective(o, o');
    }
  }

  function Filed(marks: Marks): (entries: map<string, Expiry>)
    requires forall o | o in marks :: PlainNames(o)
    ensures Files(entries, marks)
  {
    KeysStayApart(marks);
    map o | o in marks :: Key(o) := marks[o]
  }

  lemma MarksFile(entries: map<string, Expiry>, marks: Marks, more: Marks, added: map<string, Expiry>)
    requires Files(entries, marks) && Files(added, more)
    ensures Files(entries + added, marks + more)
  {
    forall o | o in marks + more
      ensures PlainNames(o) && Key(o) in entries + added && (entries + added)[Key(o)] == (marks + more)[o]
    {
      if o !in more && Key(o) in added {
        var p :| p in more && Key(p) == Key(o);
        KeyIsInjective(p, o);
      }
    }
    forall k | k in entries + added
      ensures exists o :: o in marks + more && Key(o) == k
    {
      if k in added {
        var o :| o in more && Key(o) == k;
        assert o in marks + more;
      } else {
        var o :| o in marks && Key(o) == k;
        assert o in marks + more;
      }
    }
  }

  method FileMore(entries: map<string, Expiry>, ghost marks: Marks, more: Marks) returns (all: map<string, Expiry>)
    requires Files(entries, marks) && forall o | o in more :: PlainNames(o)
    ensures Files(all, marks + more)
  {
    var added := Filed(more);
    MarksFile(entries, marks, more, added);
    all := entries + added;
  }

  class UnavailableOfferings {
    var entries: map<string, Expiry>
    var seqNum: nat
    ghost var marks: Marks

    ghost predicate Valid()
      reads this
    {
      Files(entries, marks)
    }

    constructor ()
      ensures Valid() && marks == map[] && seqNum == 0
    {
      entries := map[];
      seqNum := 0;
      marks := map[];
    }

    method MarkUnavailableWithTTL(o: Offered, ttl: int, now: int)
      requires Valid() && PlainNames(o)
      modifies this
      ensures Valid() && marks == old(marks)[o := Expires(ttl, now)]
      ensures forall t :: Unavailable(marks, o, t) <==>
                          ttl < 0 || t <= now + if ttl == 0 then 30 * 60 * SECONDS else ttl
      ensures seqNum == old(seqNum) + 1
    {
      MarkFiles(entries, marks, o, Expires(ttl, now));
      entries := entries[Key(o) := Expires(ttl, now)];
      marks := marks[o := Expires(ttl, now)];
      seqNum := seqNum + 1;
    }

    /** Calls like the one above that others make, each offering's last one counting. */
    method OthersMark(more: Marks)
      requires Valid() && forall o | o in more :: PlainNames(o)
      modifies this
      ensures Valid() && marks == old(marks) + more
    {
      var all := FileMore(entries, marks, more);
      entries, marks := all, marks + more;
      seqNum := seqNum + |more|;
    }

    method IsUnavailable(o: Offered, now: int) returns (found: bool)
      requires Valid() && PlainNames(o)
      ensures found <==> Unavailable(marks, o, now)
    {
      if Key(o) in entries {
        ghost var p :| p in marks && Key(p) == Key(o);
        KeyIsInjective(p, o);
      }
      found := Key(o) in entries && (entries[Key(o)].Never? || now <= entries[Key(o)].time);
    }

    method Flush()
      modifies this
      ensures Valid() && marks == map[] && seqNum == old(seqNum) + 1
    {
      entries := map[];
      marks := map[];
      seqNum := seqNum + 1;
    }
  }
}
