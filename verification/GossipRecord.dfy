/** Signed node announcements and their deduplication key. */
module GossipRecords {
  import opened Collections
  import opened Nodes
  import opened Calendar

  /** `node` holds the part of the announcement that circuit construction reads. */
  datatype Record = Record(version: string, node: NodeRecord, gtp: string, timestamp: Instant, signature: string)
  {
    function ServerId(): string { node.serverId }
  }

  function Digit(d: nat): char
    requires d < 10
  {
    (d + 48) as char
  }

  function Two(n: nat): (s: string)
    requires n < 100
    ensures |s| == 2
  {
    [Digit(n / 10), Digit(n % 10)]
  }

  function Rfc3339(u: Utc): (s: string)
    ensures |s| == 20
  {
    Two(u.year / 100) + Two(u.year % 100) + "-" + Two(u.month) + "-" + Two(u.day)
    + "T" + Two(u.hour) + ":" + Two(u.minute) + ":" + Two(u.second) + "Z"
  }

  function RecordKey(r: Record): string {
    r.ServerId() + "|" + Rfc3339(r.timestamp.utc)
  }

  lemma TwoInjective(a: nat, b: nat)
    requires a < 100 && b < 100 && Two(a) == Two(b)
    ensures a == b
  {
    assert Two(a)[0] == Two(b)[0] && Two(a)[1] == Two(b)[1];
  }

  lemma Fields(u: Utc)
    ensures var s := Rfc3339(u);
            && s[0..2] == Two(u.year / 100) && s[2..4] == Two(u.year % 100)
            && s[5..7] == Two(u.month) && s[8..10] == Two(u.day)
            && s[11..13] == Two(u.hour) && s[14..16] == Two(u.minute) && s[17..19] == Two(u.second)
  {
    hide Two;
  }

  lemma Rfc3339Injective(u: Utc, v: Utc)
    requires Rfc3339(u) == Rfc3339(v)
    ensures u == v
  {
    Fields(u);
    Fields(v);
    hide Two, Rfc3339;
    TwoInjective(u.year / 100, v.year / 100);
    TwoInjective(u.year % 100, v.year % 100);
    TwoInjective(u.month, v.month);
    TwoInjective(u.day, v.day);
    TwoInjective(u.hour, v.hour);
    TwoInjective(u.minute, v.minute);
    TwoInjective(u.second, v.second);
  }

  lemma KeyParts(id: string, u: Utc)
    ensures var k := id + "|" + Rfc3339(u);
            |k| >= 21 && k[..|k| - 21] == id && k[|k| - 20..] == Rfc3339(u)
  {
    hide Rfc3339;
  }

  /** Two records share a key exactly when they name the same server and the same second. */
  lemma RecordKeyIff(a: Record, b: Record)
    ensures RecordKey(a) == RecordKey(b) <==> a.ServerId() == b.ServerId() && a.timestamp.utc == b.timestamp.utc
  {
    KeyParts(a.ServerId(), a.timestamp.utc);
    KeyParts(b.ServerId(), b.timestamp.utc);
    hide Rfc3339;
    if RecordKey(a) == RecordKey(b) {
      Rfc3339Injective(a.timestamp.utc, b.timestamp.utc);
    }
  }
}
