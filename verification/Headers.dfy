/**
 Header decoding of a consumed record: three required headers, fail-closed, and an optional `traceparent` that must
 never make a difference. UTF-8 decoding is given with each byte value.
 */
module Headers {
  import opened Prelude

  datatype Key = Str(text: string) | NotStr

  /** A header value: absent, bytes with their decoding if there is one, text, or anything else. */
  datatype Value = Null | Bytes(decoded: Option<string>) | Text(text: string) | Other

  datatype Pair = Pair(key: Key, value: Value)

  /** What the client library hands over. */
  datatype Raw = Absent | Dictionary(pairs: seq<Pair>) | List(items: seq<Option<Pair>>) | OtherShape

  datatype Error =
    | MissingHeaders | UnexpectedShape | KeyType | Duplicate | NullValue | Undecodable | ValueType | UnexpectedKeys
    | BodyError(code: string) | EventTypeMismatch | EventVersionMismatch | AggregateTypeMismatch

  datatype Result = Fine(required: map<string, string>, traceparent: Option<string>) | Bad(error: Error)

  const TraceParent := "traceparent"

  function Expected(): set<string> {
    {"event_type", "event_version", "aggregate_type"}
  }

  /** `_best_effort_header_text` */
  function BestEffort(v: Value): Option<string> {
    match v
    case Text(t) => Some(t)
    case Bytes(d) => d
    case _ => None
  }

  /** Why a required value has no text, if it has none. */
  function Flaw(v: Value): (e: Option<Error>)
    ensures e.None? <==> BestEffort(v).Some?
  {
    match v
    case Null => Some(NullValue)
    case Bytes(d) => if d.None? then Some(Undecodable) else None
    case Text(_) => None
    case Other => Some(ValueType)
  }

  /** What the loop makes of the remaining pairs. */
  function Scan(ps: seq<Pair>, m: map<string, string>, seen: set<string>, tp: Option<string>): Result {
    if ps == [] then Fine(m, tp)
    else
      var p := ps[0];
      if p.key.NotStr? then Bad(KeyType)
      else if p.key.text in seen then Bad(Duplicate)
      else if p.key.text == TraceParent then Scan(ps[1..], m, seen + {p.key.text}, BestEffort(p.value))
      else if Flaw(p.value).Some? then Bad(Flaw(p.value).value)
      else Scan(ps[1..], m[p.key.text := BestEffort(p.value).value], seen + {p.key.text}, tp)
  }

  function Decoded(ps: seq<Pair>): Result {
    var r := Scan(ps, map[], {}, None);
    if r.Fine? && r.required.Keys != Expected() then Bad(UnexpectedKeys) else r
  }

  /** The loop of `_headers_as_mapping`. */
  method ScanPairs(ps: seq<Pair>) returns (r: Result)
    ensures r == Scan(ps, map[], {}, None)
  {
    var mapping: map<string, string> := map[];
    var seen: set<string> := {};
    var traceparent: Option<string> := None;
    for i := 0 to |ps|
      invariant Scan(ps[i..], mapping, seen, traceparent) == Scan(ps, map[], {}, None)
    {
      assert ps[i..][1..] == ps[i + 1..];
      var p := ps[i];
      if p.key.NotStr? { return Bad(KeyType); }
      var key := p.key.text;
      if key in seen { return Bad(Duplicate); }
      seen := seen + {key};
      if key == TraceParent {
        traceparent := BestEffort(p.value);
      } else {
        if Flaw(p.value).Some? { return Bad(Flaw(p.value).value); }
        mapping := mapping[key := BestEffort(p.value).value];
      }
    }
    r := Fine(mapping, traceparent);
  }

  /** `_headers_as_mapping` */
  method HeadersAsMapping(raw: Raw) returns (r: Result)
    ensures match raw
            case Absent => r == Bad(MissingHeaders)
            case OtherShape => r == Bad(UnexpectedShape)
            case Dictionary(ps) => r == Decoded(ps)
            case List(items) => r == if None in items then Bad(UnexpectedShape) else Decoded(Pairs(items))
  {
    match raw
    case Absent => return Bad(MissingHeaders);
    case OtherShape => return Bad(UnexpectedShape);
    case Dictionary(ps) => r := FinishHeaders(ps);
    case List(items) =>
      var ps: seq<Pair> := [];
      for i := 0 to |items|
        invariant None !in items[..i] && ps == Pairs(items[..i])
      {
        assert items[..i + 1] == items[..i] + [items[i]];
        if items[i].None? { return Bad(UnexpectedShape); }
        ps := ps + [items[i].value];
      }
      assert items[..|items|] == items;
      r := FinishHeaders(ps);
  }

  method FinishHeaders(ps: seq<Pair>) returns (r: Result)
    ensures r == Decoded(ps)
  {
    r := ScanPairs(ps);
    if r.Fine? && r.required.Keys != Expected() { r := Bad(UnexpectedKeys); }
  }

  function Pairs(items: seq<Option<Pair>>): seq<Pair>
    requires None !in items
  {
    seq(|items|, i requires 0 <= i < |items| => assert items[i] in items; items[i].value)
  }

  // ---------- The optional header ----------

  ghost predicate NoTraceParent(ps: seq<Pair>) {
    forall i :: 0 <= i < |ps| ==> ps[i].key != Str(TraceParent)
  }

  /** The same outcome except for the optional header. */
  predicate SameRequired(a: Result, b: Result) {
    if a.Fine? then b.Fine? && b.required == a.required else a == b
  }

  /** Having seen a `traceparent` makes no difference to pairs without one. */
  lemma {:induction false} SeenTraceParent(ps: seq<Pair>, m: map<string, string>, seen: set<string>, s: Option<string>, t: Option<string>)
    requires NoTraceParent(ps)
    ensures SameRequired(Scan(ps, m, seen, s), Scan(ps, m, seen + {TraceParent}, t))
    ensures Scan(ps, m, seen + {TraceParent}, t).Fine? ==> Scan(ps, m, seen + {TraceParent}, t).traceparent == t
  {
    if ps != [] && ps[0].key.Str? && ps[0].key.text !in seen && Flaw(ps[0].value).None? {
      var k := ps[0].key.text;
      SeenTraceParent(ps[1..], m[k := BestEffort(ps[0].value).value], seen + {k}, s, t);
      assert seen + {k} + {TraceParent} == seen + {TraceParent} + {k};
    }
  }

  function InsertAt(ps: seq<Pair>, i: nat, p: Pair): seq<Pair>
    requires i <= |ps|
  {
    ps[..i] + [p] + ps[i..]
  }

  lemma {:induction false} InsertScan(ps: seq<Pair>, i: nat, v: Value, m: map<string, string>, seen: set<string>, t: Option<string>)
    requires NoTraceParent(ps) && i <= |ps| && TraceParent !in seen
    ensures var r := Scan(InsertAt(ps, i, Pair(Str(TraceParent), v)), m, seen, t);
            SameRequired(Scan(ps, m, seen, t), r) && (r.Fine? ==> r.traceparent == BestEffort(v))
  {
    var p := Pair(Str(TraceParent), v);
    var qs := InsertAt(ps, i, p);
    if i == 0 {
      assert qs[1..] == ps;
      SeenTraceParent(ps, m, seen, t, BestEffort(v));
    } else {
      assert qs[0] == ps[0] && qs[1..] == InsertAt(ps[1..], i - 1, p);
      if ps[0].key.Str? && ps[0].key.text !in seen && Flaw(ps[0].value).None? {
        var k := ps[0].key.text;
        InsertScan(ps[1..], i - 1, v, m[k := BestEffort(ps[0].value).value], seen + {k}, t);
      }
    }
  }

  /**
   One `traceparent`, of any value and anywhere among headers without one, never changes the required headers or
   which error is raised.
   */
  lemma TraceParentIsNeutral(ps: seq<Pair>, i: nat, v: Value)
    requires NoTraceParent(ps) && i <= |ps|
    ensures var r := Decoded(InsertAt(ps, i, Pair(Str(TraceParent), v)));
            SameRequired(Decoded(ps), r) && (r.Fine? ==> r.traceparent == BestEffort(v))
  {
    InsertScan(ps, i, v, map[], {}, None);
  }

  // ---------- Exactly which headers are accepted ----------

  /** The value is that text, as it stands or encoded. */
  predicate Spells(v: Value, text: string) {
    v == Text(text) || v == Bytes(Some(text))
  }

  predicate Readable(v: Value) {
    v.Text? || (v.Bytes? && v.decoded.Some?)
  }

  predicate Sound(p: Pair) {
    p.key.Str? && (p.key.text == TraceParent || Readable(p.value))
  }

  ghost predicate Distinct(ps: seq<Pair>) {
    forall i, k :: 0 <= i < k < |ps| ==> ps[i].key != ps[k].key
  }

  /** Every pair is sound and names a key that occurs nowhere else. */
  ghost predicate Acceptable(ps: seq<Pair>, seen: set<string>) {
    && Distinct(ps)
    && forall i :: 0 <= i < |ps| ==> Sound(ps[i]) && ps[i].key.text !in seen
  }

  ghost predicate Has(ps: seq<Pair>, k: string) {
    exists i :: 0 <= i < |ps| && ps[i].key == Str(k)
  }

  lemma AcceptableCons(ps: seq<Pair>, seen: set<string>)
    requires ps != []
    ensures Acceptable(ps, seen) <==>
            Sound(ps[0]) && ps[0].key.text !in seen && Acceptable(ps[1..], seen + {ps[0].key.text})
  {
    var t := ps[1..];
    if Sound(ps[0]) && ps[0].key.text !in seen && Acceptable(t, seen + {ps[0].key.text}) {
      forall i, k | 0 <= i < k < |ps| ensures ps[i].key != ps[k].key {
        assert ps[k] == t[k - 1];
        assert i > 0 ==> ps[i] == t[i - 1];
      }
      forall i | 0 <= i < |ps| ensures Sound(ps[i]) && ps[i].key.text !in seen {
        assert i > 0 ==> ps[i] == t[i - 1];
      }
    }
    if Acceptable(ps, seen) {
      forall i | 0 <= i < |t| ensures Sound(t[i]) && t[i].key.text !in seen + {ps[0].key.text} {
        assert t[i] == ps[i + 1] && ps[0].key != ps[i + 1].key;
      }
    }
  }

  lemma HasCons(ps: seq<Pair>, k: string)
    requires ps != []
    ensures Has(ps, k) <==> ps[0].key == Str(k) || Has(ps[1..], k)
  {
    if Has(ps[1..], k) {
      var i :| 0 <= i < |ps[1..]| && ps[1..][i].key == Str(k);
      assert ps[i + 1].key == Str(k);
    }
    if Has(ps, k) && ps[0].key != Str(k) {
      var i :| 0 <= i < |ps| && ps[i].key == Str(k);
      assert ps[1..][i - 1].key == Str(k);
    }
  }

  lemma {:induction false} ScanFineIff(ps: seq<Pair>, m: map<string, string>, seen: set<string>, t: Option<string>)
    ensures Scan(ps, m, seen, t).Fine? <==> Acceptable(ps, seen)
    ensures Scan(ps, m, seen, t).Fine? ==>
              forall k :: k in Scan(ps, m, seen, t).required <==> k in m || (k != TraceParent && Has(ps, k))
  {
    if ps != [] {
      AcceptableCons(ps, seen);
      var p := ps[0];
      forall k ensures Has(ps, k) <==> p.key == Str(k) || Has(ps[1..], k) {
        HasCons(ps, k);
      }
      if p.key.Str? && p.key.text !in seen {
        if p.key.text == TraceParent {
          ScanFineIff(ps[1..], m, seen + {p.key.text}, BestEffort(p.value));
        } else if Flaw(p.value).None? {
          ScanFineIff(ps[1..], m[p.key.text := BestEffort(p.value).value], seen + {p.key.text}, t);
        }
      }
    }
  }

  /** Headers are accepted exactly when every pair is sound, no key repeats, and the other keys are the required ones. */
  lemma DecodedFineIff(ps: seq<Pair>)
    ensures Decoded(ps).Fine? <==> Acceptable(ps, {}) && forall k :: k in Expected() <==> k != TraceParent && Has(ps, k)
  {
    ScanFineIff(ps, map[], {}, None);
    var r := Scan(ps, map[], {}, None);
    if r.Fine? {
      assert r.required.Keys == Expected() <==> forall k :: k in r.required <==> k in Expected();
    }
  }

  lemma {:induction false} OnlyDuplicatesFail(ps: seq<Pair>, m: map<string, string>, seen: set<string>, t: Option<string>)
    requires forall i :: 0 <= i < |ps| ==> Sound(ps[i])
    ensures Scan(ps, m, seen, t).Bad? ==> Scan(ps, m, seen, t).error == Duplicate
  {
    if ps != [] && ps[0].key.text !in seen {
      var k := ps[0].key.text;
      if k == TraceParent {
        OnlyDuplicatesFail(ps[1..], m, seen + {k}, BestEffort(ps[0].value));
      } else {
        OnlyDuplicatesFail(ps[1..], m[k := BestEffort(ps[0].value).value], seen + {k}, t);
      }
    }
  }

  lemma TwoTraceParents(ps: seq<Pair>, i: nat, v: Value, j: nat, w: Value)
    requires i <= |ps| && j <= |ps| + 1
    ensures var two := InsertAt(InsertAt(ps, i, Pair(Str(TraceParent), v)), j, Pair(Str(TraceParent), w));
            && !Distinct(two)
            && ((forall k :: 0 <= k < |ps| ==> Sound(ps[k])) ==> forall k :: 0 <= k < |two| ==> Sound(two[k]))
  {
    var one := InsertAt(ps, i, Pair(Str(TraceParent), v));
    var two := InsertAt(one, j, Pair(Str(TraceParent), w));
    var other := if i < j then i else i + 1;
    assert one[i].key == Str(TraceParent) && two[other] == one[i] && two[j].key == Str(TraceParent);
  }

  /** A second `traceparent` is always an error, and the duplicate-key error if the headers were acceptable. */
  lemma SecondTraceParentFails(ps: seq<Pair>, i: nat, v: Value, j: nat, w: Value)
    requires NoTraceParent(ps) && i <= |ps| && j <= |ps| + 1
    ensures var r := Decoded(InsertAt(InsertAt(ps, i, Pair(Str(TraceParent), v)), j, Pair(Str(TraceParent), w)));
            r.Bad? && (Decoded(ps).Fine? ==> r.error == Duplicate)
  {
    var two := InsertAt(InsertAt(ps, i, Pair(Str(TraceParent), v)), j, Pair(Str(TraceParent), w));
    TwoTraceParents(ps, i, v, j, w);
    ScanFineIff(two, map[], {}, None);
    if Decoded(ps).Fine? {
      DecodedFineIff(ps);
      OnlyDuplicatesFail(two, map[], {}, None);
    }
  }

  // ---------- The whole record ----------

  /** The record's value after size, UTF-8, JSON and catalogue checks: an error, or the event's header fields. */
  datatype Body = Unreadable(code: string) | Parsed(eventType: string, version: string, aggregateType: string)

  datatype Outcome = Event(body: Body, traceparent: Option<string>) | Poisoned(error: Error)

  predicate HeaderIs(m: map<string, string>, k: string, v: string) {
    k in m && m[k] == v
  }

  /** `decode_message`: headers first, then the value, then that they agree. */
  function DecodeMessage(ps: seq<Pair>, b: Body): Outcome {
    var h := Decoded(ps);
    if h.Bad? then Poisoned(h.error)
    else if b.Unreadable? then Poisoned(BodyError(b.code))
    else if !HeaderIs(h.required, "event_type", b.eventType) then Poisoned(EventTypeMismatch)
    else if !HeaderIs(h.required, "event_version", b.version) then Poisoned(EventVersionMismatch)
    else if !HeaderIs(h.required, "aggregate_type", b.aggregateType) then Poisoned(AggregateTypeMismatch)
    else Event(b, h.traceparent)
  }

  /** Telemetry never poisons a record: the decoded event and the error are the same with and without it. */
  lemma TraceParentNeverPoisons(ps: seq<Pair>, i: nat, v: Value, b: Body)
    requires NoTraceParent(ps) && i <= |ps|
    ensures var with, without := DecodeMessage(InsertAt(ps, i, Pair(Str(TraceParent), v)), b), DecodeMessage(ps, b);
            if without.Poisoned? then with == without else with == Event(b, BestEffort(v))
  {
    TraceParentIsNeutral(ps, i, v);
  }

  /** A record is accepted exactly when its headers are and say what its value says. */
  lemma MessageAcceptedIff(ps: seq<Pair>, b: Body)
    ensures DecodeMessage(ps, b).Event? <==>
            && Decoded(ps).Fine? && b.Parsed?
            && Decoded(ps).required ==
               map["event_type" := b.eventType, "event_version" := b.version, "aggregate_type" := b.aggregateType]
  {
    KeysDiffer();
    var r := Decoded(ps);
    if DecodeMessage(ps, b).Event? {
      assert r.required.Keys == Expected();
    }
  }

  lemma KeysDiffer()
    ensures "event_type" != "event_version" && "event_type" != "aggregate_type" && "event_version" != "aggregate_type"
  {
    assert "event_type"[6] == 't' && "event_version"[6] == 'v' && "aggregate_type"[0] == 'a';
  }

  // ---------- Which error, and which values ----------

  /** Why a value other than the optional header's is refused. */
  predicate Refused(v: Value, e: Error) {
    match e
    case NullValue => v.Null?
    case Undecodable => v == Bytes(None)
    case ValueType => v.Other?
    case _ => false
  }

  /** The key of pair `k` was seen before. */
  ghost predicate Repeated(ps: seq<Pair>, seen: set<string>, k: nat)
    requires k < |ps| && ps[k].key.Str?
  {
    ps[k].key.text in seen || exists i :: 0 <= i < k && ps[i].key == ps[k].key
  }

  ghost predicate Faulty(ps: seq<Pair>, seen: set<string>, k: nat, e: Error)
    requires k < |ps|
  {
    if ps[k].key.NotStr? then e == KeyType
    else if Repeated(ps, seen, k) then e == Duplicate
    else ps[k].key.text != TraceParent && Refused(ps[k].value, e)
  }

  /** Pair `k` is at fault, and every pair before it is fine. */
  ghost predicate FirstFault(ps: seq<Pair>, seen: set<string>, k: nat, e: Error) {
    k < |ps| && Acceptable(ps[..k], seen) && Faulty(ps, seen, k, e)
  }

  lemma RepeatedCons(ps: seq<Pair>, seen: set<string>, k: nat)
    requires 0 < k < |ps| && ps[0].key.Str? && ps[k].key.Str?
    ensures Repeated(ps, seen, k) <==> Repeated(ps[1..], seen + {ps[0].key.text}, k - 1)
  {
    var t := ps[1..];
    if i :| 0 <= i < k && ps[i].key == ps[k].key {
      assert i > 0 ==> t[i - 1].key == t[k - 1].key;
    }
    if i :| 0 <= i < k - 1 && t[i].key == t[k - 1].key {
      assert ps[i + 1].key == ps[k].key;
    }
  }

  lemma FirstFaultCons(ps: seq<Pair>, seen: set<string>, k: nat, e: Error)
    requires 0 < k < |ps|
    ensures FirstFault(ps, seen, k, e) <==>
            Sound(ps[0]) && ps[0].key.text !in seen && FirstFault(ps[1..], seen + {ps[0].key.text}, k - 1, e)
  {
    var t := ps[1..];
    AcceptableCons(ps[..k], seen);
    assert ps[..k][1..] == t[..k - 1];
    if ps[0].key.Str? && ps[k].key.Str? {
      RepeatedCons(ps, seen, k);
    }
  }

  /** The error is the one of the first pair at fault. */
  lemma {:induction false} FaultDecides(ps: seq<Pair>, m: map<string, string>, seen: set<string>, t: Option<string>, k: nat, e: Error)
    requires FirstFault(ps, seen, k, e)
    ensures Scan(ps, m, seen, t) == Bad(e)
  {
    if k > 0 {
      FirstFaultCons(ps, seen, k, e);
      var key := ps[0].key.text;
      if key == TraceParent {
        FaultDecides(ps[1..], m, seen + {key}, BestEffort(ps[0].value), k - 1, e);
      } else {
        FaultDecides(ps[1..], m[key := BestEffort(ps[0].value).value], seen + {key}, t, k - 1, e);
      }
    }
  }

  lemma {:induction false} ErrorHasFault(ps: seq<Pair>, m: map<string, string>, seen: set<string>, t: Option<string>) returns (k: nat)
    requires Scan(ps, m, seen, t).Bad?
    ensures FirstFault(ps, seen, k, Scan(ps, m, seen, t).error)
  {
    k := 0;
    var p := ps[0];
    if Sound(p) && p.key.text !in seen {
      var i;
      if p.key.text == TraceParent {
        i := ErrorHasFault(ps[1..], m, seen + {p.key.text}, BestEffort(p.value));
      } else {
        i := ErrorHasFault(ps[1..], m[p.key.text := BestEffort(p.value).value], seen + {p.key.text}, t);
      }
      k := i + 1;
      FirstFaultCons(ps, seen, k, Scan(ps, m, seen, t).error);
    }
  }

  /** The keys other than the optional one are the three required ones. */
  ghost predicate RequiredKeys(ps: seq<Pair>) {
    forall k :: k in Expected() <==> k != TraceParent && Has(ps, k)
  }

  /** Headers fail with the error of the first pair at fault, or else because their keys are not the required ones. */
  lemma DecodedErrorIff(ps: seq<Pair>, e: Error)
    ensures Decoded(ps) == Bad(e) <==>
            || (exists k: nat :: FirstFault(ps, {}, k, e))
            || (e == UnexpectedKeys && Acceptable(ps, {}) && !RequiredKeys(ps))
  {
    DecodedFineIff(ps);
    ScanFineIff(ps, map[], {}, None);
    if Scan(ps, map[], {}, None).Bad? {
      var k := ErrorHasFault(ps, map[], {}, None);
    }
    if k: nat :| FirstFault(ps, {}, k, e) {
      FaultDecides(ps, map[], {}, None, k, e);
    }
  }

  /** Some pair gives the key that text. */
  ghost predicate Says(ps: seq<Pair>, key: string, text: string) {
    exists i :: 0 <= i < |ps| && ps[i].key == Str(key) && Spells(ps[i].value, text)
  }

  lemma SaysCons(ps: seq<Pair>, key: string, text: string)
    requires ps != []
    ensures Says(ps, key, text) <==> (ps[0].key == Str(key) && Spells(ps[0].value, text)) || Says(ps[1..], key, text)
  {
    var t := ps[1..];
    if i :| 0 <= i < |t| && t[i].key == Str(key) && Spells(t[i].value, text) {
      assert ps[i + 1].key == Str(key);
    }
    if i :| 0 <= i < |ps| && ps[i].key == Str(key) && Spells(ps[i].value, text) {
      assert i > 0 ==> t[i - 1] == ps[i];
    }
  }

  lemma {:induction false} ScanValues(ps: seq<Pair>, m: map<string, string>, seen: set<string>, t: Option<string>, key: string, text: string)
    requires Scan(ps, m, seen, t).Fine?
    ensures var r := Scan(ps, m, seen, t);
            if key == TraceParent then r.traceparent == Some(text) <==> Says(ps, key, text) || (t == Some(text) && !Has(ps, key))
            else HeaderIs(r.required, key, text) <==> Says(ps, key, text) || (HeaderIs(m, key, text) && !Has(ps, key))
  {
    ScanFineIff(ps, m, seen, t);
    if ps != [] {
      AcceptableCons(ps, seen);
      SaysCons(ps, key, text);
      HasCons(ps, key);
      var k := ps[0].key.text;
      if k == TraceParent {
        ScanValues(ps[1..], m, seen + {k}, BestEffort(ps[0].value), key, text);
      } else {
        ScanValues(ps[1..], m[k := BestEffort(ps[0].value).value], seen + {k}, t, key, text);
      }
      if ps[0].key == Str(key) {
        NotTwice(ps, seen, key, text);
      }
    }
  }

  lemma NotTwice(ps: seq<Pair>, seen: set<string>, key: string, text: string)
    requires ps != [] && Acceptable(ps, seen) && ps[0].key == Str(key)
    ensures !Has(ps[1..], key) && !Says(ps[1..], key, text)
  {
    var t := ps[1..];
    forall i | 0 <= i < |t| ensures t[i].key != Str(key) {
      assert t[i] == ps[i + 1];
    }
  }

  /** Accepted headers carry the texts that their pairs spell, and a `traceparent` exactly if one can be read. */
  lemma DecodedValues(ps: seq<Pair>, key: string, text: string)
    requires Decoded(ps).Fine?
    ensures key != TraceParent ==> (HeaderIs(Decoded(ps).required, key, text) <==> Says(ps, key, text))
    ensures Decoded(ps).traceparent == Some(text) <==> Says(ps, TraceParent, text)
  {
    ScanValues(ps, map[], {}, None, key, text);
    ScanValues(ps, map[], {}, None, TraceParent, text);
  }

  /** Which record is refused with which error, read off its pairs and its value. */
  lemma MessagePoisonedIff(ps: seq<Pair>, b: Body, e: Error)
    ensures Decoded(ps).Bad? ==> (DecodeMessage(ps, b) == Poisoned(e) <==> Decoded(ps) == Bad(e))
    ensures Decoded(ps).Fine? && b.Unreadable? ==> (DecodeMessage(ps, b) == Poisoned(e) <==> e == BodyError(b.code))
    ensures Decoded(ps).Fine? && b.Parsed? ==> (DecodeMessage(ps, b) == Poisoned(e) <==> Disagrees(ps, b, e))
  {
    KeysDiffer();
    if Decoded(ps).Fine? && b.Parsed? {
      DecodedValues(ps, "event_type", b.eventType);
      DecodedValues(ps, "event_version", b.version);
      DecodedValues(ps, "aggregate_type", b.aggregateType);
    }
  }

  /** The first of the three headers, in the order they are compared, that does not say what the value says. */
  ghost predicate Disagrees(ps: seq<Pair>, b: Body, e: Error)
    requires b.Parsed?
  {
    var kind, version := Says(ps, "event_type", b.eventType), Says(ps, "event_version", b.version);
    match e
    case EventTypeMismatch => !kind
    case EventVersionMismatch => kind && !version
    case AggregateTypeMismatch => kind && version && !Says(ps, "aggregate_type", b.aggregateType)
    case _ => false
  }
}
