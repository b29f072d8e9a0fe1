/** The signature lookup page: a query is trimmed and classified as a
    4-byte function selector, a 32-byte event topic, a malformed hash, or a
    free-text search; the signature database's answer, maps from hashes to
    lists of signatures, is flattened into one list of table rows.

    The database's answer is an input: `None` when the request or the
    decoding of its body fails, otherwise the decoded body, whose maps are
    given as their entries in `Object.entries` order. */
module Signatures {
  import opened Common

  /** The characters `String.prototype.trim` removes: the ECMAScript
      WhiteSpace and LineTerminator code points. */
  predicate IsSpace(c: char)
  {
    c == ' ' || c == '\t' || c == '\n' || c == '\r' || c == '\U{000B}' || c == '\U{000C}'
    || c == '\U{00A0}' || c == '\U{FEFF}' || c == '\U{1680}' || ('\U{2000}' <= c <= '\U{200A}')
    || c == '\U{2028}' || c == '\U{2029}' || c == '\U{202F}' || c == '\U{205F}' || c == '\U{3000}'
  }

  /** `s` with its leading white space removed. */
  function TrimStart(s: string): string
  {
    if |s| > 0 && IsSpace(s[0]) then TrimStart(s[1..]) else s
  }

  /** `s` with its trailing white space removed. */
  function TrimEnd(s: string): string
  {
    if |s| > 0 && IsSpace(s[|s| - 1]) then TrimEnd(s[..|s| - 1]) else s
  }

  /** `s.trim()`. */
  function Trim(s: string): string
  {
    TrimEnd(TrimStart(s))
  }

  /** Every character of `s` is white space. */
  predicate AllSpace(s: string)
  {
    forall i | 0 <= i < |s| :: IsSpace(s[i])
  }

  lemma AllSpaceCons(c: char, w: string)
    requires IsSpace(c) && AllSpace(w)
    ensures AllSpace([c] + w)
  {
    forall i | 0 <= i < |w| + 1
      ensures IsSpace(([c] + w)[i])
    {
      if i > 0 {
        assert ([c] + w)[i] == w[i - 1];
      }
    }
  }

  lemma AllSpaceSnoc(w: string, c: char)
    requires AllSpace(w) && IsSpace(c)
    ensures AllSpace(w + [c])
  {
    forall i | 0 <= i < |w| + 1
      ensures IsSpace((w + [c])[i])
    {
      if i < |w| {
        assert (w + [c])[i] == w[i];
      }
    }
  }

  /** Trimming the start drops a prefix of white space and stops at a
      character that is not white space. */
  lemma {:induction false} TrimStartShape(s: string)
    ensures var r := TrimStart(s);
            |r| <= |s| && r == s[|s| - |r|..] && AllSpace(s[..|s| - |r|])
            && (|r| > 0 ==> !IsSpace(r[0]))
  {
    if |s| > 0 && IsSpace(s[0]) {
      var t := s[1..];
      TrimStartShape(t);
      var r := TrimStart(t);
      assert t[|t| - |r|..] == s[|s| - |r|..];
      assert s[..|s| - |r|] == [s[0]] + t[..|t| - |r|];
      AllSpaceCons(s[0], t[..|t| - |r|]);
    }
  }

  /** Trimming the end drops a suffix of white space and stops at a
      character that is not white space. */
  lemma {:induction false} TrimEndShape(s: string)
    ensures var r := TrimEnd(s);
            |r| <= |s| && r == s[..|r|] && AllSpace(s[|r|..])
            && (|r| > 0 ==> !IsSpace(r[|r| - 1]))
  {
    if |s| > 0 && IsSpace(s[|s| - 1]) {
      var init := s[..|s| - 1];
      TrimEndShape(init);
      var r := TrimEnd(init);
      assert init[..|r|] == s[..|r|];
      assert s[|r|..] == init[|r|..] + [s[|s| - 1]];
      AllSpaceSnoc(init[|r|..], s[|s| - 1]);
    }
  }

  /** Trimming removes white space from both ends and nothing else: the
      result is a contiguous piece of the input that neither starts nor ends
      with white space, and what was cut off is all white space. */
  lemma TrimShape(s: string)
    ensures var r := Trim(s);
            exists i | 0 <= i <= |s| - |r| ::
              s[i..i + |r|] == r && AllSpace(s[..i]) && AllSpace(s[i + |r|..])
    ensures var r := Trim(s);
            |r| > 0 ==> !IsSpace(r[0]) && !IsSpace(r[|r| - 1])
  {
    var t := TrimStart(s);
    var r := TrimEnd(t);
    TrimStartShape(s);
    TrimEndShape(t);
    var i := |s| - |t|;
    assert s[i..i + |r|] == t[..|r|];
    assert s[i + |r|..] == t[|r|..];
    if |r| > 0 {
      assert r[0] == t[0];
    }
    assert s[i..i + |r|] == r && AllSpace(s[..i]) && AllSpace(s[i + |r|..]);
  }

  /** A query is empty after trimming exactly when it is all white space. */
  lemma TrimEmptyIff(s: string)
    ensures Trim(s) == "" <==> AllSpace(s)
  {
    TrimShape(s);
    if AllSpace(s) {
      AllSpaceTrimsAway(s);
    }
    if Trim(s) == "" {
      var i :| 0 <= i <= |s| && AllSpace(s[..i]) && AllSpace(s[i..]);
      forall k | 0 <= k < |s| ensures IsSpace(s[k]) {
        if k < i { assert s[k] == s[..i][k]; } else { assert s[k] == s[i..][k - i]; }
      }
    }
  }

  /** A string of white space trims to nothing. */
  lemma {:induction false} AllSpaceTrimsAway(s: string)
    requires AllSpace(s)
    ensures TrimStart(s) == "" && Trim(s) == ""
  {
    if |s| > 0 {
      assert AllSpace(s[1..]) by {
        forall k | 0 <= k < |s| - 1 ensures IsSpace(s[1..][k]) { assert s[1..][k] == s[k + 1]; }
      }
      AllSpaceTrimsAway(s[1..]);
    }
  }

  /** The two endpoints of the signature database. */
  const LookupUrl: string := "https://api.4byte.sourcify.dev/signature-database/v1/lookup?filter=false"
  const SearchUrl: string := "https://api.4byte.sourcify.dev/signature-database/v1/search?filter=false"

  /** A request: an endpoint and the one search parameter appended to it. */
  datatype Request = Request(endpoint: string, param: string, value: string)

  /** What a search does with its query. */
  datatype Plan =
    | Ignore          // nothing to search for
    | RejectLength    // a `0x` hash of neither selector nor topic length
    | Send(request: Request)

  /** Classification of the trimmed query: a `0x` string of 10 characters
      is a function selector, one of 66 an event topic, any other `0x`
      string is rejected, and anything else is a free-text search. */
  function Classify(searchText: string): Plan
  {
    var query := Trim(searchText);
    if query == "" then Ignore
    else if IsPrefix("0x", query) then
      if |query| == 10 then Send(Request(LookupUrl, "function", query))
      else if |query| == 66 then Send(Request(LookupUrl, "event", query))
      else RejectLength
    else Send(Request(SearchUrl, "query", query))
  }

  /** What each kind of query leads to: only a non-blank query is sent,
      always trimmed; a `0x` query goes to the lookup endpoint exactly when
      it has the length of a selector or of a topic and is rejected
      otherwise; every other query goes to the search endpoint. */
  lemma ClassifyOutcomes(searchText: string)
    ensures var q, plan := Trim(searchText), Classify(searchText);
            && (plan == Ignore <==> q == "")
            && (plan.Send? ==> plan.request.value == q && q != "")
            && (plan == RejectLength <==> IsPrefix("0x", q) && |q| != 10 && |q| != 66)
            && (plan.Send? && plan.request.endpoint == LookupUrl <==> IsPrefix("0x", q) && (|q| == 10 || |q| == 66))
            && (plan.Send? && plan.request.endpoint == SearchUrl <==> q != "" && !IsPrefix("0x", q))
  {
  }

  /** Lower-case hexadecimal digits. */
  predicate IsHexDigit(c: char)
  {
    '0' <= c <= '9' || 'a' <= c <= 'f'
  }

  function HexDigit(n: nat): char
    requires n < 16
  {
    if n < 10 then ('0' as int + n) as char else ('a' as int + n - 10) as char
  }

  /** The hex encoding of `bytes`, two digits per byte. */
  function Hex(bytes: seq<bv8>): (r: string)
    ensures |r| == 2 * |bytes|
    ensures forall i | 0 <= i < |r| :: IsHexDigit(r[i])
  {
    if |bytes| == 0 then ""
    else Hex(bytes[..|bytes| - 1]) + [HexDigit(bytes[|bytes| - 1] as nat / 16), HexDigit(bytes[|bytes| - 1] as nat % 16)]
  }

  /** A 4-byte function selector written as `0x` and eight hex digits is
      looked up as a function; a 32-byte event topic written as `0x` and
      64 hex digits is looked up as an event; surrounding white space makes
      no difference. */
  lemma SelectorsAndTopics(bytes: seq<bv8>, before: string, after: string)
    requires AllSpace(before) && AllSpace(after)
    requires |bytes| == 4 || |bytes| == 32
    ensures var q := "0x" + Hex(bytes);
            Classify(before + q + after)
            == Send(Request(LookupUrl, if |bytes| == 4 then "function" else "event", q))
  {
    var q := "0x" + Hex(bytes);
    HexQueryShape(bytes);
    TrimSurrounded(before, q, after);
    ClassifyHexQuery(before + q + after, q);
  }

  /** A `0x`-prefixed hex string has no white space at either end. */
  lemma HexQueryShape(bytes: seq<bv8>)
    requires |bytes| > 0
    ensures var q := "0x" + Hex(bytes);
            && |q| == 2 + 2 * |bytes| && IsPrefix("0x", q)
            && !IsSpace(q[0]) && !IsSpace(q[|q| - 1])
  {
    var h := Hex(bytes);
    var q := "0x" + h;
    assert q[0] == '0';
    assert q[|q| - 1] == h[|h| - 1] && IsHexDigit(h[|h| - 1]);
    assert q[..2] == "0x";
  }

  /** A `0x` query of selector or topic length is looked up. */
  lemma ClassifyHexQuery(searchText: string, q: string)
    requires Trim(searchText) == q && IsPrefix("0x", q)
    requires |q| == 10 || |q| == 66
    ensures Classify(searchText)
            == Send(Request(LookupUrl, if |q| == 10 then "function" else "event", q))
  {
  }

  /** Trimming a string that starts and ends with non-space characters and
      is surrounded by white space gives that string back. */
  lemma TrimSurrounded(before: string, q: string, after: string)
    requires AllSpace(before) && AllSpace(after)
    requires |q| > 0 && !IsSpace(q[0]) && !IsSpace(q[|q| - 1])
    ensures Trim(before + q + after) == q
  {
    TrimStartSpaces(before, q + after);
    assert before + q + after == before + (q + after);
    TrimEndSpaces(q, after);
  }

  /** Trimming the start removes exactly the white space in front. */
  lemma {:induction false} TrimStartSpaces(before: string, rest: string)
    requires AllSpace(before) && |rest| > 0 && !IsSpace(rest[0])
    ensures TrimStart(before + rest) == rest
  {
    if |before| > 0 {
      assert (before + rest)[1..] == before[1..] + rest;
      TrimStartSpaces(before[1..], rest);
    } else {
      assert before + rest == rest;
    }
  }

  /** Trimming the end removes exactly the white space behind. */
  lemma {:induction false} TrimEndSpaces(rest: string, after: string)
    requires AllSpace(after) && |rest| > 0 && !IsSpace(rest[|rest| - 1])
    ensures TrimEnd(rest + after) == rest
  {
    if |after| > 0 {
      assert (rest + after)[..|rest + after| - 1] == rest + after[..|after| - 1];
      TrimEndSpaces(rest, after[..|after| - 1]);
    } else {
      assert rest + after == rest;
    }
  }

  /** One signature the database returns for a hash. */
  datatype Signature = Signature(name: string, filtered: bool, hasVerifiedContract: bool)

  /** The entries of a `hash → signatures` map. */
  type Entries = seq<(string, seq<Signature>)>

  /** The `result` of an answer: its `function` and `event` maps, either of
      which may be absent. */
  datatype Found = Found(functions: Option<Entries>, events: Option<Entries>)

  /** The decoded answer: `ok`, and the `result` when there is one. */
  datatype Answer = Answer(ok: bool, result: Option<Found>)

  datatype Kind = Function | Event

  /** A row of the results table. */
  datatype Row = Row(hash: string, name: string, filtered: bool, hasVerifiedContract: bool, kind: Kind)

  function RowFor(hash: string, sig: Signature, kind: Kind): Row
  {
    Row(hash, sig.name, sig.filtered, sig.hasVerifiedContract, kind)
  }

  /** The rows of one hash: one per signature, in order. */
  function SigRows(hash: string, sigs: seq<Signature>, kind: Kind): (r: seq<Row>)
    ensures |r| == |sigs|
  {
    seq(|sigs|, j requires 0 <= j < |sigs| => RowFor(hash, sigs[j], kind))
  }

  /** The rows of a whole map, hash by hash. */
  function RowsOf(entries: Entries, kind: Kind): seq<Row>
  {
    if |entries| == 0 then []
    else RowsOf(entries[..|entries| - 1], kind) + SigRows(entries[|entries| - 1].0, entries[|entries| - 1].1, kind)
  }

  /** The rows an answer's `result` flattens to: every function row, then
      every event row. */
  function Flattened(found: Found): seq<Row>
  {
    (if found.functions.Some? then RowsOf(found.functions.value, Function) else [])
    + (if found.events.Some? then RowsOf(found.events.value, Event) else [])
  }

  /** The number of signatures in a map. */
  function TotalSigs(entries: Entries): nat
  {
    if |entries| == 0 then 0 else TotalSigs(entries[..|entries| - 1]) + |entries[|entries| - 1].1|
  }

  /** There is one row per signature. */
  lemma {:induction false} RowCount(entries: Entries, kind: Kind)
    ensures |RowsOf(entries, kind)| == TotalSigs(entries)
  {
    if |entries| > 0 {
      RowCount(entries[..|entries| - 1], kind);
    }
  }

  /** Row `r` comes from one of the signatures of `entry`. */
  predicate Yields(entry: (string, seq<Signature>), kind: Kind, r: Row)
  {
    exists j | 0 <= j < |entry.1| :: r == RowFor(entry.0, entry.1[j], kind)
  }

  /** A row is in the flattening of a map exactly when it is the row of one
      of its (hash, signature) pairs. */
  lemma {:induction false} RowsFromPairs(entries: Entries, kind: Kind, r: Row)
    ensures r in RowsOf(entries, kind) <==> exists i | 0 <= i < |entries| :: Yields(entries[i], kind, r)
  {
    if |entries| > 0 {
      var init, last := entries[..|entries| - 1], entries[|entries| - 1];
      RowsFromPairs(init, kind, r);
      var rows := SigRows(last.0, last.1, kind);
      assert r in rows <==> Yields(last, kind, r) by {
        if r in rows {
          var j :| 0 <= j < |rows| && rows[j] == r;
          assert r == RowFor(last.0, last.1[j], kind);
        }
        if Yields(last, kind, r) {
          var j :| 0 <= j < |last.1| && r == RowFor(last.0, last.1[j], kind);
          assert rows[j] == r;
        }
      }
      if exists i | 0 <= i < |entries| :: Yields(entries[i], kind, r) {
        var i :| 0 <= i < |entries| && Yields(entries[i], kind, r);
        if i < |entries| - 1 {
          assert entries[i] == init[i];
        }
      }
      if exists i | 0 <= i < |init| :: Yields(init[i], kind, r) {
        var i :| 0 <= i < |init| && Yields(init[i], kind, r);
        assert entries[i] == init[i];
      }
    }
  }

  /** Every row of a map's flattening carries the map's kind. */
  lemma {:induction false} RowsHaveKind(entries: Entries, kind: Kind)
    ensures forall r | r in RowsOf(entries, kind) :: r.kind == kind
  {
    if |entries| > 0 {
      RowsHaveKind(entries[..|entries| - 1], kind);
    }
  }

  /** In the flattened answer every function row comes before every event
      row, and there is one row per signature of either map. */
  lemma FunctionsBeforeEvents(found: Found)
    ensures var rows := Flattened(found);
            forall i, j | 0 <= i < j < |rows| :: rows[i].kind == Event ==> rows[j].kind == Event
    ensures |Flattened(found)|
            == (if found.functions.Some? then TotalSigs(found.functions.value) else 0)
               + (if found.events.Some? then TotalSigs(found.events.value) else 0)
  {
    var fs := if found.functions.Some? then RowsOf(found.functions.value, Function) else [];
    var es := if found.events.Some? then RowsOf(found.events.value, Event) else [];
    if found.functions.Some? {
      RowsHaveKind(found.functions.value, Function);
      RowCount(found.functions.value, Function);
    }
    if found.events.Some? {
      RowsHaveKind(found.events.value, Event);
      RowCount(found.events.value, Event);
    }
    assert Flattened(found) == fs + es;
    KindsInOrder(fs, es);
  }

  /** Function rows followed by event rows have no event before a function. */
  lemma KindsInOrder(fs: seq<Row>, es: seq<Row>)
    requires forall r | r in fs :: r.kind == Function
    requires forall r | r in es :: r.kind == Event
    ensures var rows := fs + es;
            forall i, j | 0 <= i < j < |rows| :: rows[i].kind == Event ==> rows[j].kind == Event
  {
    var rows := fs + es;
    forall i | 0 <= i < |rows|
      ensures rows[i].kind == (if i < |fs| then Function else Event)
    {
      if i < |fs| {
        assert rows[i] == fs[i] && fs[i] in fs;
      } else {
        assert rows[i] == es[i - |fs|] && es[i - |fs|] in es;
      }
    }
  }

  /** One `forEach` block of the flattening: each hash's signatures are
      pushed, in order, onto `rows`. */
  method PushRows(rows: seq<Row>, entries: Entries, kind: Kind) returns (out: seq<Row>)
    ensures out == rows + RowsOf(entries, kind)
  {
    out := rows;
    var i := 0;
    while i < |entries|
      invariant 0 <= i <= |entries|
      invariant out == rows + RowsOf(entries[..i], kind)
    {
      var hash, sigs := entries[i].0, entries[i].1;
      var j := 0;
      while j < |sigs|
        invariant 0 <= j <= |sigs|
        invariant out == rows + RowsOf(entries[..i], kind) + SigRows(hash, sigs[..j], kind)
      {
        assert SigRows(hash, sigs[..j + 1], kind) == SigRows(hash, sigs[..j], kind) + [RowFor(hash, sigs[j], kind)];
        out := out + [RowFor(hash, sigs[j], kind)];
        j := j + 1;
      }
      assert sigs[..j] == sigs;
      assert entries[..i + 1][..i] == entries[..i];
      i := i + 1;
    }
    assert entries[..i] == entries;
  }

  /** The page size of the results table: 50 rows when there are more than
      50, otherwise a single unpaginated table. */
  function PageSize(count: nat): (r: Option<nat>)
    ensures r.Some? <==> count > 50
    ensures r.Some? ==> r.value == 50 && r.value < count
  {
    if count > 50 then Some(50) else None
  }

  /** The table's key of a row. */
  function RowKey(r: Row): string
  {
    r.hash + "-" + r.name
  }

  /** Two rows whose hashes contain no `-` (as hex hashes do not) have the
      same key only if they have the same hash and name. */
  lemma RowKeyInjective(r1: Row, r2: Row)
    requires '-' !in r1.hash && '-' !in r2.hash
    requires RowKey(r1) == RowKey(r2)
    ensures r1.hash == r2.hash && r1.name == r2.name
  {
    var k := RowKey(r1);
    DashAfterHash(r1);
    DashAfterHash(r2);
    assert r1.hash == k[..|r1.hash|] == r2.hash;
    assert r1.name == k[|r1.hash| + 1..] == r2.name;
  }

  /** The first `-` of a key is the one after the hash. */
  lemma DashAfterHash(r: Row)
    requires '-' !in r.hash
    ensures IndexOf(RowKey(r), '-') == |r.hash|
  {
    assert forall i | 0 <= i < |r.hash| :: r.hash[i] != '-' by {
      forall i | 0 <= i < |r.hash| ensures r.hash[i] != '-' { assert r.hash[i] in r.hash; }
    }
    assert RowKey(r) == r.hash + ("-" + r.name);
    IndexOfAfter(r.hash, '-', "-" + r.name);
  }

  /** The page's state. */
  class SignatureLookup {
    var searchText: string
    var loading: bool
    var results: seq<Row>
    var searched: bool

    constructor ()
      ensures searchText == "" && !loading && results == [] && !searched
    {
      searchText := "";
      loading := false;
      results := [];
      searched := false;
    }

    /** `handleSearch`, given the database's answer to the request it
        issues. Returns the request sent, if any. A blank query changes
        nothing; otherwise the search is marked as done and loading ends;
        the results are replaced only by a successful answer with a
        `result`, whose maps are flattened. */
    method HandleSearch(answer: Option<Answer>) returns (sent: Option<Request>)
      modifies this
      ensures Classify(old(searchText)) == Ignore ==> sent == None && unchanged(this)
      ensures Classify(old(searchText)) == RejectLength ==>
                sent == None && searched && !loading && results == old(results) && searchText == old(searchText)
      ensures Classify(old(searchText)).Send? ==>
                && sent == Some(Classify(old(searchText)).request)
                && searched && !loading && searchText == old(searchText)
                && results == (if answer.Some? && answer.value.ok && answer.value.result.Some?
                               then Flattened(answer.value.result.value) else old(results))
    {
      var plan := Classify(searchText);
      if plan == Ignore {
        return None;
      }
      loading := true;
      searched := true;
      if plan == RejectLength {
        loading := false;
        return None;
      }
      sent := Some(plan.request);
      if answer.Some? && answer.value.ok {
        if answer.value.result.Some? {
          var found := answer.value.result.value;
          var flattened: seq<Row> := [];
          if found.functions.Some? {
            flattened := PushRows(flattened, found.functions.value, Function);
            assert flattened == RowsOf(found.functions.value, Function);
          }
          if found.events.Some? {
            flattened := PushRows(flattened, found.events.value, Event);
          }
          assert flattened == Flattened(found);
          results := flattened;
        }
      }
      loading := false;
    }
  }
}
