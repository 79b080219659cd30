/** The replay tool: parsing an exported flags-table CSV into table items,
    collecting the teams named by the recorded submissions, and the schedule
    on which the replay tallies scores and records snapshots. */
module LogReplay {
  import opened PyValue
  import ScoreCardTally

  // ---------------------------------------------------------------------------
  // CSV headers of the form "<name> (<type>)"

  /** Python's `s.split(" ")`: the pieces between single spaces, empty pieces kept. */
  function SplitSpace(s: string): (parts: seq<string>)
    ensures |parts| >= 1
    ensures forall i :: 0 <= i < |parts| ==> ' ' !in parts[i]
    decreases |s|
  {
    var k := IndexOf(s, ' ');
    if k == |s| then [s] else [s[..k]] + SplitSpace(s[k + 1..])
  }

  /** `" ".join(parts)`. */
  function JoinSpace(parts: seq<string>): string
    requires |parts| >= 1
  {
    if |parts| == 1 then parts[0] else parts[0] + " " + JoinSpace(parts[1..])
  }

  /** Splitting and joining on single spaces are inverse. */
  lemma {:induction false} JoinSplit(s: string)
    ensures JoinSpace(SplitSpace(s)) == s
    decreases |s|
  {
    var k := IndexOf(s, ' ');
    if k < |s| {
      var parts := SplitSpace(s);
      assert parts == [s[..k]] + SplitSpace(s[k + 1..]);
      assert parts[0] == s[..k] && parts[1..] == SplitSpace(s[k + 1..]);
      JoinSplit(s[k + 1..]);
      assert JoinSpace(parts) == s[..k] + " " + s[k + 1..];
      assert s == s[..k] + " " + s[k + 1..];
    } else {
      assert SplitSpace(s) == [s];
    }
  }

  lemma IndexOfAfterSpaceFree(a: string, b: string)
    requires ' ' !in a
    ensures IndexOf(a + " " + b, ' ') == |a|
  {
    if a != [] {
      assert (a + " " + b)[1..] == a[1..] + " " + b;
      IndexOfAfterSpaceFree(a[1..], b);
    }
  }

  lemma {:induction false} SplitJoin(parts: seq<string>)
    requires |parts| >= 1
    requires forall i :: 0 <= i < |parts| ==> ' ' !in parts[i]
    ensures SplitSpace(JoinSpace(parts)) == parts
  {
    var s := JoinSpace(parts);
    if |parts| == 1 {
      NoSpaceIndex(parts[0]);
    } else {
      var rest := JoinSpace(parts[1..]);
      IndexOfAfterSpaceFree(parts[0], rest);
      assert s[..|parts[0]|] == parts[0];
      assert s[|parts[0]| + 1..] == rest;
      SplitJoin(parts[1..]);
    }
  }

  lemma NoSpaceIndex(s: string)
    requires ' ' !in s
    ensures IndexOf(s, ' ') == |s|
  {
  }

  /** `ddb_name(h)`: the text of `h` before its first space (all of `h` when it has none). */
  function DdbName(h: string): (r: string)
    ensures r == h[..IndexOf(h, ' ')]
    ensures ' ' !in r
  {
    SplitSpace(h)[0]
  }

  /** `t[1:-1]`: drops the first and last character; empty for strings shorter than two. */
  function Unwrap(t: string): (r: string)
    ensures |t| >= 2 ==> r == t[1..|t| - 1]
    ensures |t| < 2 ==> r == []
  {
    if |t| >= 2 then t[1..|t| - 1] else []
  }

  /** `ddb_type(h)`: the second space-separated token without its first and
      last character; `IndexError` when `h` has no space. */
  function DdbType(h: string): (r: Result<string>)
    ensures r.Err? <==> ' ' !in h
    ensures r.Err? ==> r.exc == IndexError
    ensures r.Ok? ==> var rest := h[IndexOf(h, ' ') + 1..];
                      r.value == Unwrap(rest[..IndexOf(rest, ' ')])
  {
    var parts := SplitSpace(h);
    var k := IndexOf(h, ' ');
    if |parts| < 2 then
      assert k == |h|;
      Err(IndexError)
    else
      assert parts[1] == DdbName(h[k + 1..]);
      Ok(Unwrap(parts[1]))
  }

  /** A header written as "<name> (<type>)" parses back to its name and type. */
  lemma HeaderRoundTrip(name: string, ty: string)
    requires ' ' !in name && ' ' !in ty
    ensures DdbName(name + " (" + ty + ")") == name
    ensures DdbType(name + " (" + ty + ")") == Ok(ty)
  {
    var wrapped := "(" + ty + ")";
    assert ' ' !in wrapped;
    assert name + " (" + ty + ")" == name + " " + wrapped;
    SplitJoin([name, wrapped]);
    assert JoinSpace([name, wrapped]) == name + " " + wrapped;
    assert wrapped[1..|wrapped| - 1] == ty;
  }

  // ---------------------------------------------------------------------------
  // Cell values

  /** `ddb_value(type, val)`. `loads` is `json.loads`, failing with the error it raises. */
  function DdbValue(valType: string, val: string, loads: string -> Result<Value>): (r: Result<Value>)
    ensures valType == "M" && val == "" ==> r == Ok(VDict(map[]))
    ensures valType == "M" && val != "" ==> r == loads(val)
    ensures valType == "BOOL" ==> r.Ok? && r.value.VBool? && (r.value.b <==> val == "TRUE")
    ensures valType != "M" && valType != "BOOL" ==> r == Ok(VStr(val))
  {
    if valType == "M" then
      if val == "" then Ok(VDict(map[])) else loads(val)
    else if valType == "BOOL" then Ok(VBool(val == "TRUE"))
    else Ok(VStr(val))
  }

  /** `{ddb_type(h): ddb_value(ddb_type(h), v)}` for one non-empty cell. */
  function CellOf(h: string, v: string, loads: string -> Result<Value>): Result<Value> {
    match DdbType(h)
    case Err(e) => Err(e)
    case Ok(t) =>
      match DdbValue(t, v, loads)
      case Err(e) => Err(e)
      case Ok(x) => Ok(VDict(map[t := x]))
  }

  /** A cell counts towards the item when it is non-empty. */
  predicate Kept(row: seq<(string, string)>, i: int) {
    0 <= i < |row| && row[i].1 != ""
  }

  /** No later kept cell of the row has the same attribute name. */
  predicate LastOfName(row: seq<(string, string)>, i: int)
    requires 0 <= i < |row|
  {
    forall j :: i < j < |row| && Kept(row, j) ==> DdbName(row[j].0) != DdbName(row[i].0)
  }

  /** One CSV row, as (header, cell) pairs in iteration order, turned into a
      table item: empty cells are dropped, every other cell becomes
      `name: {type: value}`, and a later cell of the same name wins. */
  function ReadRow(row: seq<(string, string)>, loads: string -> Result<Value>): Result<map<string, Value>> {
    if row == [] then Ok(map[])
    else
      var (h, v) := row[|row| - 1];
      match ReadRow(row[..|row| - 1], loads)
      case Err(e) => Err(e)
      case Ok(m) =>
        if v == "" then Ok(m)
        else
          match CellOf(h, v, loads)
          case Err(e) => Err(e)
          case Ok(c) => Ok(m[DdbName(h) := c])
  }

  /** A row converts exactly when each of its non-empty cells does. */
  lemma {:induction false} ReadRowSucceeds(row: seq<(string, string)>, loads: string -> Result<Value>)
    ensures ReadRow(row, loads).Ok? <==> forall i :: Kept(row, i) ==> CellOf(row[i].0, row[i].1, loads).Ok?
  {
    if row != [] {
      var init := row[..|row| - 1];
      var last := |row| - 1;
      ReadRowSucceeds(init, loads);
      if ReadRow(row, loads).Ok? {
        assert ReadRow(init, loads).Ok?;
        forall i | Kept(row, i)
          ensures CellOf(row[i].0, row[i].1, loads).Ok?
        {
          if i < last {
            assert Kept(init, i) && init[i] == row[i];
          }
        }
      } else if ReadRow(init, loads).Err? {
        var i :| Kept(init, i) && CellOf(init[i].0, init[i].1, loads).Err?;
        assert Kept(row, i) && row[i] == init[i];
      } else {
        assert Kept(row, last) && CellOf(row[last].0, row[last].1, loads).Err?;
      }
    }
  }

  /** The item's attributes are the names of the non-empty cells, each holding
      the value of the last non-empty cell of that name. */
  lemma {:induction false} ReadRowContents(row: seq<(string, string)>, loads: string -> Result<Value>, i: int)
    requires ReadRow(row, loads).Ok?
    ensures forall n :: n in ReadRow(row, loads).value ==> exists j :: Kept(row, j) && DdbName(row[j].0) == n
    ensures Kept(row, i) ==> DdbName(row[i].0) in ReadRow(row, loads).value
    ensures Kept(row, i) && LastOfName(row, i) ==>
              && CellOf(row[i].0, row[i].1, loads).Ok?
              && ReadRow(row, loads).value[DdbName(row[i].0)] == CellOf(row[i].0, row[i].1, loads).value
  {
    ReadRowKeys(row, loads);
    ReadRowCell(row, loads, i);
  }

  lemma {:induction false} ReadRowKeys(row: seq<(string, string)>, loads: string -> Result<Value>)
    requires ReadRow(row, loads).Ok?
    ensures forall n :: n in ReadRow(row, loads).value ==> exists j :: Kept(row, j) && DdbName(row[j].0) == n
  {
    if row != [] {
      var init := row[..|row| - 1];
      var m := ReadRow(init, loads).value;
      ReadRowKeys(init, loads);
      forall n | n in m
        ensures exists j :: Kept(row, j) && DdbName(row[j].0) == n
      {
        var j :| Kept(init, j) && DdbName(init[j].0) == n;
        assert Kept(row, j) && row[j] == init[j];
      }
    }
  }

  lemma {:induction false} ReadRowCell(row: seq<(string, string)>, loads: string -> Result<Value>, i: int)
    requires ReadRow(row, loads).Ok?
    ensures Kept(row, i) ==> DdbName(row[i].0) in ReadRow(row, loads).value
    ensures Kept(row, i) && LastOfName(row, i) ==>
              && CellOf(row[i].0, row[i].1, loads).Ok?
              && ReadRow(row, loads).value[DdbName(row[i].0)] == CellOf(row[i].0, row[i].1, loads).value
  {
    if row != [] && Kept(row, i) {
      var init := row[..|row| - 1];
      var last := |row| - 1;
      var m := ReadRow(init, loads).value;
      var r := ReadRow(row, loads).value;
      if i < last {
        assert init[i] == row[i] && Kept(init, i);
        ReadRowCell(init, loads, i);
        if LastOfName(row, i) {
          assert LastOfName(init, i);
          assert Kept(row, last) ==> DdbName(row[last].0) != DdbName(row[i].0);
          assert r[DdbName(row[i].0)] == m[DdbName(row[i].0)];
        }
      }
    }
  }

  /** `read_flags_table`: one item per row, or the first error raised. */
  function ReadFlagsTable(rows: seq<seq<(string, string)>>, loads: string -> Result<Value>): (r: Result<seq<map<string, Value>>>)
    ensures r.Ok? ==> |r.value| == |rows|
  {
    if rows == [] then Ok([])
    else
      match ReadFlagsTable(rows[..|rows| - 1], loads)
      case Err(e) => Err(e)
      case Ok(items) =>
        match ReadRow(rows[|rows| - 1], loads)
        case Err(e) => Err(e)
        case Ok(item) => Ok(items + [item])
  }

  /** The read succeeds exactly when every row converts, and then item `i`
      is row `i` converted. */
  lemma {:induction false} ReadFlagsTableRows(rows: seq<seq<(string, string)>>, loads: string -> Result<Value>)
    ensures ReadFlagsTable(rows, loads).Ok? <==> forall i :: 0 <= i < |rows| ==> ReadRow(rows[i], loads).Ok?
    ensures ReadFlagsTable(rows, loads).Ok? ==>
              forall i :: 0 <= i < |rows| ==> ReadFlagsTable(rows, loads).value[i] == ReadRow(rows[i], loads).value
  {
    if rows != [] {
      var n := |rows| - 1;
      var init := rows[..n];
      ReadFlagsTableRows(init, loads);
      assert forall i :: 0 <= i < n ==> init[i] == rows[i];
      var prev, last := ReadFlagsTable(init, loads), ReadRow(rows[n], loads);
      if prev.Err? {
        var j :| 0 <= j < n && !ReadRow(init[j], loads).Ok?;
        assert ReadFlagsTable(rows, loads).Err? && !ReadRow(rows[j], loads).Ok?;
      } else if last.Err? {
        assert ReadFlagsTable(rows, loads).Err?;
      } else {
        assert ReadFlagsTable(rows, loads) == Ok(prev.value + [last.value]);
        RowsAppend(rows, loads, prev.value, last.value);
      }
    }
  }

  /** Appending the last row's item keeps every item that of its row. */
  lemma RowsAppend(rows: seq<seq<(string, string)>>, loads: string -> Result<Value>, prev: seq<map<string, Value>>, last: map<string, Value>)
    requires rows != [] && |prev| == |rows| - 1
    requires forall i :: 0 <= i < |prev| ==> ReadRow(rows[i], loads).Ok? && prev[i] == ReadRow(rows[i], loads).value
    requires ReadRow(rows[|rows| - 1], loads) == Ok(last)
    ensures forall i :: 0 <= i < |rows| ==> ReadRow(rows[i], loads).Ok? && (prev + [last])[i] == ReadRow(rows[i], loads).value
  {
    forall i | 0 <= i < |rows|
      ensures ReadRow(rows[i], loads).Ok? && (prev + [last])[i] == ReadRow(rows[i], loads).value
    {
      if i < |prev| { assert (prev + [last])[i] == prev[i]; }
    }
  }

  // ---------------------------------------------------------------------------
  // Teams named by the recorded submissions

  /** Adds `str(int(event["team"]))` for each event, skipping teams `int()`
      rejects; a missing `team` raises `KeyError` and a list or dict team
      raises `TypeError` (unhashable, in the `not in teams` test). */
  function CollectTeams(events: seq<map<string, Value>>): (r: Result<set<string>>)
    ensures r.Ok? ==> forall t :: t in r.value ==> ParseIntLiteral(t).Some? && IntToStr(ParseIntLiteral(t).value) == t
  {
    if events == [] then Ok({})
    else
      match CollectTeams(events[..|events| - 1])
      case Err(e) => Err(e)
      case Ok(teams) =>
        var e := events[|events| - 1];
        if "team" !in e then Err(KeyError)
        else if e["team"].VList? || e["team"].VDict? then Err(TypeError)
        else
          match IntOf(e["team"])
          case IntOk(n) =>
            IntToStrRoundTrip(n);
            Ok(teams + {IntToStr(n)})
          case IntRaises(_) => Ok(teams)
  }

  /** The event's team field parses and prints as `t`. */
  predicate NamesTeam(e: map<string, Value>, t: string) {
    "team" in e && IntOf(e["team"]).IntOk? && IntToStr(IntOf(e["team"]).n) == t
  }

  /** The teams collected are exactly the printed forms of the parseable team fields. */
  lemma CollectTeamsExact(events: seq<map<string, Value>>, t: string)
    requires CollectTeams(events).Ok?
    ensures t in CollectTeams(events).value <==> exists i :: 0 <= i < |events| && NamesTeam(events[i], t)
  {
    if t in CollectTeams(events).value {
      var i := CollectedTeamIsNamed(events, t);
    }
    forall i | 0 <= i < |events| && NamesTeam(events[i], t)
      ensures t in CollectTeams(events).value
    {
      NamedTeamIsCollected(events, t, i);
    }
  }

  /** Every collected team comes from some event: returns that event's index. */
  lemma {:induction false} CollectedTeamIsNamed(events: seq<map<string, Value>>, t: string) returns (i: nat)
    requires CollectTeams(events).Ok? && t in CollectTeams(events).value
    ensures i < |events| && NamesTeam(events[i], t)
  {
    var init := events[..|events| - 1];
    CollectTeamsStep(events, t);
    if NamesTeam(events[|events| - 1], t) {
      i := |events| - 1;
    } else {
      i := CollectedTeamIsNamed(init, t);
      assert events[i] == init[i];
    }
  }

  /** The team of every event whose team field parses is collected. */
  lemma {:induction false} NamedTeamIsCollected(events: seq<map<string, Value>>, t: string, i: nat)
    requires CollectTeams(events).Ok? && i < |events| && NamesTeam(events[i], t)
    ensures t in CollectTeams(events).value
  {
    var init := events[..|events| - 1];
    CollectTeamsStep(events, t);
    if i < |events| - 1 {
      assert init[i] == events[i];
      NamedTeamIsCollected(init, t, i);
    }
  }

  /** One event adds its own team, if any, to the teams of the events before it. */
  lemma CollectTeamsStep(events: seq<map<string, Value>>, t: string)
    requires events != [] && CollectTeams(events).Ok?
    ensures CollectTeams(events[..|events| - 1]).Ok?
    ensures t in CollectTeams(events).value
            <==> t in CollectTeams(events[..|events| - 1]).value || NamesTeam(events[|events| - 1], t)
  {
  }

  /** The preprocessing loop of the replay's entry point: the team set and the number of events. */
  method PreprocessTeams(events: seq<map<string, Value>>) returns (r: Result<(set<string>, nat)>)
    ensures CollectTeams(events).Err? ==> r == Err(CollectTeams(events).exc)
    ensures CollectTeams(events).Ok? ==> r == Ok((CollectTeams(events).value, |events|))
  {
    var teams: set<string> := {};
    var total := 0;
    while total < |events|
      invariant 0 <= total <= |events|
      invariant CollectTeams(events[..total]) == Ok(teams)
    {
      var e := events[total];
      assert events[..total + 1][..total] == events[..total];
      if "team" !in e {
        BadPrefixFails(events, total + 1);
        return Err(KeyError);
      }
      if e["team"].VList? || e["team"].VDict? {
        BadPrefixFails(events, total + 1);
        return Err(TypeError);
      }
      var parsed := IntOf(e["team"]);
      if parsed.IntOk? {
        teams := teams + {IntToStr(parsed.n)};
      }
      total := total + 1;
    }
    assert events[..total] == events;
    r := Ok((teams, total));
  }

  /** Once a prefix raises, so does every longer list of events, with the same exception. */
  lemma {:induction false} BadPrefixFails(events: seq<map<string, Value>>, k: nat)
    requires k <= |events| && CollectTeams(events[..k]).Err?
    ensures CollectTeams(events) == CollectTeams(events[..k])
    decreases |events| - k
  {
    if k < |events| {
      assert events[..k + 1][..k] == events[..k];
      BadPrefixFails(events, k + 1);
    } else {
      assert events[..k] == events;
    }
  }

  // ---------------------------------------------------------------------------
  // The tally schedule

  /** A tally is due on the first event, and afterwards once `interval` has
      passed since the last tally. */
  predicate TallyDue(last: Option<real>, timestamp: real, interval: real) {
    last.None? || timestamp - last.value >= interval
  }

  /** `last_tally_time` after the events with these timestamps. */
  function LastTally(stamps: seq<real>, interval: real): Option<real> {
    if stamps == [] then None
    else
      var last := LastTally(stamps[..|stamps| - 1], interval);
      if TallyDue(last, stamps[|stamps| - 1], interval) then Some(stamps[|stamps| - 1]) else last
  }

  /** The indices of the events after which a tally was taken. */
  function Tallied(stamps: seq<real>, interval: real): (ix: seq<nat>)
    ensures forall k :: 0 <= k < |ix| ==> ix[k] < |stamps|
    ensures forall k, l :: 0 <= k < l < |ix| ==> ix[k] < ix[l]
    ensures |stamps| > 0 ==> |ix| > 0 && ix[0] == 0
    ensures |ix| > 0 <==> LastTally(stamps, interval).Some?
    ensures |ix| > 0 ==> LastTally(stamps, interval) == Some(stamps[ix[|ix| - 1]])
  {
    if stamps == [] then []
    else
      var init := stamps[..|stamps| - 1];
      var prev := Tallied(init, interval);
      if TallyDue(LastTally(init, interval), stamps[|stamps| - 1], interval) then prev + [|stamps| - 1]
      else prev
  }

  /** Consecutive tallies are at least `interval` apart in event time. */
  lemma {:induction false} TalliesSpaced(stamps: seq<real>, interval: real, k: nat)
    requires k + 1 < |Tallied(stamps, interval)|
    ensures var ix := Tallied(stamps, interval);
            stamps[ix[k + 1]] - stamps[ix[k]] >= interval
  {
    var n := |stamps| - 1;
    var init := stamps[..n];
    var ix, prev := Tallied(stamps, interval), Tallied(init, interval);
    if TallyDue(LastTally(init, interval), stamps[n], interval) {
      assert ix == prev + [n];
      if k + 1 == |prev| {
        assert LastTally(init, interval) == Some(init[prev[k]]);
        assert ix[k] == prev[k] && ix[k + 1] == n;
      } else {
        TalliesSpaced(init, interval, k);
        assert ix[k] == prev[k] && ix[k + 1] == prev[k + 1];
      }
    } else {
      assert ix == prev;
      TalliesSpaced(init, interval, k);
    }
  }

  /** An event skipped by the schedule comes less than `interval` after the
      tally before it. */
  lemma {:induction false} SkippedEventsAreEarly(stamps: seq<real>, interval: real, i: nat, k: nat)
    requires i < |stamps|
    requires var ix := Tallied(stamps, interval);
             k < |ix| && ix[k] < i && (k + 1 == |ix| || i < ix[k + 1])
    ensures stamps[i] - stamps[Tallied(stamps, interval)[k]] < interval
  {
    var n := |stamps| - 1;
    var init := stamps[..n];
    var ix, prev := Tallied(stamps, interval), Tallied(init, interval);
    var due := TallyDue(LastTally(init, interval), stamps[n], interval);
    if due {
      assert ix == prev + [n];
    } else {
      assert ix == prev;
    }
    if i == n {
      assert !due && k + 1 == |prev|;
      assert LastTally(init, interval) == Some(init[prev[k]]);
    } else {
      assert k < |prev| && ix[k] == prev[k];
      assert k + 1 == |prev| || (ix[k + 1] == prev[k + 1] && i < prev[k + 1]);
      SkippedEventsAreEarly(init, interval, i, k);
      assert stamps[i] == init[i] && stamps[prev[k]] == init[prev[k]];
    }
  }

  // ---------------------------------------------------------------------------
  // Snapshots

  /** `dict(zip(flag_keys, values))`: pairs up to the shorter length, a later pair winning. */
  function ZipList(keys: seq<string>, values: seq<Value>): (m: map<string, Value>)
    ensures m.Keys == set i | 0 <= i < |keys| && i < |values| :: keys[i]
  {
    if |keys| == 0 || |values| == 0 then map[]
    else
      var n := if |keys| < |values| then |keys| else |values|;
      ZipList(keys[..n - 1], values[..n - 1])[keys[n - 1] := values[n - 1]]
  }

  /** Pair `i` is the last zipped pair with its key. */
  predicate LastPair(keys: seq<string>, values: seq<Value>, i: nat)
    requires i < |keys|
  {
    forall j :: i < j < |keys| && j < |values| ==> keys[j] != keys[i]
  }

  /** A key maps to the value of the last pair that names it. */
  lemma {:induction false} ZipListLastPairWins(keys: seq<string>, values: seq<Value>, i: nat)
    requires i < |keys| && i < |values| && LastPair(keys, values, i)
    ensures keys[i] in ZipList(keys, values) && ZipList(keys, values)[keys[i]] == values[i]
  {
    var n := if |keys| < |values| then |keys| else |values|;
    if i < n - 1 {
      assert keys[n - 1] != keys[i];
      var ks, vs := keys[..n - 1], values[..n - 1];
      assert LastPair(ks, vs, i) by {
        forall j | i < j < |ks| && j < |vs| ensures ks[j] != ks[i] {
          assert ks[j] == keys[j] && ks[i] == keys[i];
        }
      }
      ZipListLastPairWins(ks, vs, i);
    }
  }

  /** A string's characters as one-character strings, as iterating it gives. */
  function Chars(s: string): (r: seq<Value>)
    ensures |r| == |s| && forall i :: 0 <= i < |s| ==> r[i] == VStr([s[i]])
  {
    seq(|s|, i requires 0 <= i < |s| => VStr([s[i]]))
  }

  /** The bitmask of a response turned into a map from flag names: a list or
      a string is zipped with the flag names; anything else raises `TypeError`. */
  function BitmaskByFlag(keys: seq<string>, bitmask: Value): (r: Result<map<string, Value>>)
    ensures r.Err? <==> !bitmask.VList? && !bitmask.VStr?
    ensures r.Err? ==> r.exc == TypeError
    ensures bitmask.VList? ==> r == Ok(ZipList(keys, bitmask.items))
    ensures bitmask.VStr? ==> r == Ok(ZipList(keys, Chars(bitmask.s)))
  {
    match bitmask
    case VList(items) => Ok(ZipList(keys, items))
    case VStr(s) => Ok(ZipList(keys, Chars(s)))
    case _ => Err(TypeError)
  }

  /** One response with a `team`: with a bitmask, the bitmask is replaced by
      its per-flag map and the redundant `team` is dropped. */
  function SnapshotEntry(snap: map<string, Value>, flagKeys: seq<string>): (r: Result<map<string, Value>>)
    ensures r.Err? ==> r.exc == TypeError
    ensures "bitmask" !in snap ==> r == Ok(snap)
    ensures "bitmask" in snap ==> (r.Ok? <==> BitmaskByFlag(flagKeys, snap["bitmask"]).Ok?)
    ensures r.Ok? ==> r.value.Keys == if "bitmask" in snap then snap.Keys - {"team"} else snap.Keys
    ensures r.Ok? && "bitmask" in snap ==>
              && r.value["bitmask"] == VDict(BitmaskByFlag(flagKeys, snap["bitmask"]).value)
              && forall k :: k in r.value && k != "bitmask" ==> r.value[k] == snap[k]
  {
    if "bitmask" in snap then
      match BitmaskByFlag(flagKeys, snap["bitmask"])
      case Err(e) => Err(e)
      case Ok(b) => Ok(snap["bitmask" := VDict(b)] - {"team"})
    else Ok(snap)
  }

  /** A `team` value Python cannot hash, so it cannot key a dict. */
  predicate Unhashable(v: Value) {
    v.VList? || v.VDict?
  }

  /** The responses with a `team`, keyed by it, a later response winning; a
      list or dict team raises `TypeError` (it cannot be a dict key). */
  function ByTeam(responses: seq<map<string, Value>>): (r: Result<map<Value, map<string, Value>>>)
    ensures r.Err? ==> r.exc == TypeError
    ensures r.Ok? ==> r.value.Keys == set i | 0 <= i < |responses| && "team" in responses[i] :: responses[i]["team"]
    ensures r.Ok? ==> forall t :: t in r.value ==> "team" in r.value[t] && r.value[t]["team"] == t
  {
    if responses == [] then Ok(map[])
    else
      var init := responses[..|responses| - 1];
      var snap := responses[|responses| - 1];
      match ByTeam(init)
      case Err(e) => Err(e)
      case Ok(m) =>
        if "team" !in snap then Ok(m)
        else if Unhashable(snap["team"]) then Err(TypeError)
        else Ok(m[snap["team"] := snap])
  }

  /** Response `i` is the last one naming its team. */
  predicate LastWithTeam(responses: seq<map<string, Value>>, i: nat)
    requires i < |responses| && "team" in responses[i]
  {
    forall j :: i < j < |responses| && "team" in responses[j] ==> responses[j]["team"] != responses[i]["team"]
  }

  /** Grouping fails exactly when some response names an unhashable team. */
  lemma {:induction false} ByTeamFailsIffUnhashable(responses: seq<map<string, Value>>)
    ensures ByTeam(responses).Err? <==>
              exists i :: 0 <= i < |responses| && "team" in responses[i] && Unhashable(responses[i]["team"])
  {
    if responses != [] {
      var n := |responses| - 1;
      var init := responses[..n];
      ByTeamFailsIffUnhashable(init);
      assert forall i :: 0 <= i < n ==> init[i] == responses[i];
      if ByTeam(responses).Err? && ByTeam(init).Ok? {
        assert "team" in responses[n] && Unhashable(responses[n]["team"]);
      }
    }
  }

  /** Each team's entry is the last response naming it. */
  lemma {:induction false} ByTeamLastWins(responses: seq<map<string, Value>>, i: nat)
    requires i < |responses| && "team" in responses[i] && LastWithTeam(responses, i)
    requires ByTeam(responses).Ok?
    ensures ByTeam(responses).value[responses[i]["team"]] == responses[i]
  {
    var n := |responses| - 1;
    if i < n {
      var init := responses[..n];
      assert init[i] == responses[i];
      assert LastWithTeam(init, i) by {
        forall j | i < j < |init| && "team" in init[j] ensures init[j]["team"] != init[i]["team"] {
          assert init[j] == responses[j];
        }
      }
      ByTeamLastWins(init, i);
    }
  }

  /** The snapshot recorded at one tally. */
  function Snapshot(responses: seq<map<string, Value>>, flagKeys: seq<string>): (r: Result<map<Value, map<string, Value>>>)
    ensures r.Err? ==> r.exc == TypeError
    ensures r.Ok? ==> ByTeam(responses).Ok? && r.value.Keys == ByTeam(responses).value.Keys
    ensures r.Ok? ==> forall t :: t in r.value ==> SnapshotEntry(ByTeam(responses).value[t], flagKeys) == Ok(r.value[t])
    ensures r.Ok? ==> forall t :: t in r.value ==> ("team" in r.value[t] <==> "bitmask" !in r.value[t])
  {
    match ByTeam(responses)
    case Err(e) => Err(e)
    case Ok(m) =>
      if forall t :: t in m ==> SnapshotEntry(m[t], flagKeys).Ok? then
        Ok(map t | t in m :: SnapshotEntry(m[t], flagKeys).value)
      else Err(TypeError)
  }

  /** A snapshot fails exactly when grouping fails or some team's entry
      cannot be converted. */
  lemma SnapshotFailsIff(responses: seq<map<string, Value>>, flagKeys: seq<string>)
    ensures Snapshot(responses, flagKeys).Err? <==>
              ByTeam(responses).Err? ||
              exists t :: t in ByTeam(responses).value && SnapshotEntry(ByTeam(responses).value[t], flagKeys).Err?
  {
  }

  /** A tally response as the dictionary the handler returns. */
  function ResponseDict(r: ScoreCardTally.TallyResponse): map<string, Value>
    requires !r.Raised?
  {
    match r
    case Score(team, score) => map["Team" := VInt(team), "Score" := VFloat(score)]
    case ClientError(messages) =>
      map["ClientError" := VList(seq(|messages|, i requires 0 <= i < |messages| => VStr(messages[i])))]
  }

  /** The tally handler answers with `Team`, `Score` or `ClientError` and never
      with a lower-case `team`, so every snapshot of its responses is empty. */
  lemma {:induction false} TallyResponsesGiveEmptySnapshots(rs: seq<ScoreCardTally.TallyResponse>, flagKeys: seq<string>)
    requires forall i :: 0 <= i < |rs| ==> !rs[i].Raised?
    ensures Snapshot(seq(|rs|, i requires 0 <= i < |rs| => ResponseDict(rs[i])), flagKeys) == Ok(map[])
  {
    var ds := seq(|rs|, i requires 0 <= i < |rs| => ResponseDict(rs[i]));
    assert forall i :: 0 <= i < |ds| ==> "team" !in ds[i];
    NoTeamNoEntries(ds);
  }

  lemma {:induction false} NoTeamNoEntries(responses: seq<map<string, Value>>)
    requires forall i :: 0 <= i < |responses| ==> "team" !in responses[i]
    ensures ByTeam(responses) == Ok(map[])
  {
    if responses != [] {
      NoTeamNoEntries(responses[..|responses| - 1]);
    }
  }

  // ---------------------------------------------------------------------------
  // The replay loop

  /** One entry of `score_snapshots`. */
  datatype SnapshotRecord = SnapshotRecord(timestamp: real, snapshot: map<Value, map<string, Value>>)

  /** The snapshots recorded over the events, `tallies[i]` being the responses
      the tally handler gives for every team after event `i`. */
  function Recorded(stamps: seq<real>, interval: real, tallies: seq<seq<map<string, Value>>>, flagKeys: seq<string>): (r: Result<seq<SnapshotRecord>>)
    requires |tallies| == |stamps|
    ensures r.Err? ==> r.exc == TypeError
    ensures r.Ok? ==> |r.value| == |Tallied(stamps, interval)|
    ensures r.Ok? ==> forall k :: 0 <= k < |r.value| ==>
              r.value[k].timestamp == stamps[Tallied(stamps, interval)[k]]
  {
    if stamps == [] then Ok([])
    else
      var n := |stamps| - 1;
      match Recorded(stamps[..n], interval, tallies[..n], flagKeys)
      case Err(e) => Err(e)
      case Ok(recs) =>
        if TallyDue(LastTally(stamps[..n], interval), stamps[n], interval) then
          match Snapshot(tallies[n], flagKeys)
          case Err(e) => Err(e)
          case Ok(s) => Ok(recs + [SnapshotRecord(stamps[n], s)])
        else Ok(recs)
  }

  /** The records are the snapshots of the tallies at `ix`, in order. */
  predicate SnapshotsMatch(tallies: seq<seq<map<string, Value>>>, ix: seq<nat>, recs: seq<SnapshotRecord>, flagKeys: seq<string>) {
    |recs| <= |ix| &&
    forall k :: 0 <= k < |recs| ==> ix[k] < |tallies| && Snapshot(tallies[ix[k]], flagKeys) == Ok(recs[k].snapshot)
  }

  /** Each record holds the snapshot of the tally taken after its event. */
  lemma {:induction false} RecordedSnapshots(stamps: seq<real>, interval: real, tallies: seq<seq<map<string, Value>>>, flagKeys: seq<string>)
    requires |tallies| == |stamps|
    ensures Recorded(stamps, interval, tallies, flagKeys).Ok? ==>
      SnapshotsMatch(tallies, Tallied(stamps, interval), Recorded(stamps, interval, tallies, flagKeys).value, flagKeys)
  {
    var r := Recorded(stamps, interval, tallies, flagKeys);
    if stamps != [] && r.Ok? {
      var n := |stamps| - 1;
      var init, early := stamps[..n], tallies[..n];
      var ix, pix := Tallied(stamps, interval), Tallied(init, interval);
      var prev := Recorded(init, interval, early, flagKeys);
      var due := TallyDue(LastTally(init, interval), stamps[n], interval);
      RecordedSnapshots(init, interval, early, flagKeys);
      assert prev.Ok? && ix == (if due then pix + [n] else pix);
      var rec := SnapshotRecord(stamps[n], if due then Snapshot(tallies[n], flagKeys).value else map[]);
      assert r.value == (if due then prev.value + [rec] else prev.value);
      ExtendMatch(tallies, n, pix, ix, prev.value, r.value, rec, due, flagKeys);
    }
  }

  /** One more event keeps the records matched to their tallies. */
  lemma ExtendMatch(tallies: seq<seq<map<string, Value>>>, n: nat, pix: seq<nat>, ix: seq<nat>,
                    prev: seq<SnapshotRecord>, recs: seq<SnapshotRecord>, rec: SnapshotRecord, due: bool, flagKeys: seq<string>)
    requires n < |tallies| && SnapshotsMatch(tallies[..n], pix, prev, flagKeys)
    requires ix == (if due then pix + [n] else pix) && |prev| == |pix|
    requires recs == (if due then prev + [rec] else prev)
    requires due ==> Snapshot(tallies[n], flagKeys) == Ok(rec.snapshot)
    ensures SnapshotsMatch(tallies, ix, recs, flagKeys)
  {
    forall k | 0 <= k < |recs| ensures ix[k] < |tallies| && Snapshot(tallies[ix[k]], flagKeys) == Ok(recs[k].snapshot) {
      if k < |prev| {
        assert recs[k] == prev[k] && ix[k] == pix[k] && tallies[..n][pix[k]] == tallies[ix[k]];
      }
    }
  }

  /** Some tally among those at `ix` cannot be snapshotted. */
  predicate SnapshotFailsAt(tallies: seq<seq<map<string, Value>>>, ix: seq<nat>, flagKeys: seq<string>) {
    exists k :: 0 <= k < |ix| && ix[k] < |tallies| && Snapshot(tallies[ix[k]], flagKeys).Err?
  }

  /** The replay fails exactly when one of the scheduled tallies cannot be snapshotted. */
  lemma RecordedFailsIff(stamps: seq<real>, interval: real, tallies: seq<seq<map<string, Value>>>, flagKeys: seq<string>)
    requires |tallies| == |stamps|
    ensures Recorded(stamps, interval, tallies, flagKeys).Err? <==> SnapshotFailsAt(tallies, Tallied(stamps, interval), flagKeys)
  {
    RecordedSnapshots(stamps, interval, tallies, flagKeys);
    RecordedErrWitness(stamps, interval, tallies, flagKeys);
  }

  /** A failed replay names a scheduled tally whose snapshot fails. */
  lemma {:induction false} RecordedErrWitness(stamps: seq<real>, interval: real, tallies: seq<seq<map<string, Value>>>, flagKeys: seq<string>)
    requires |tallies| == |stamps|
    ensures Recorded(stamps, interval, tallies, flagKeys).Err? ==> SnapshotFailsAt(tallies, Tallied(stamps, interval), flagKeys)
  {
    var r := Recorded(stamps, interval, tallies, flagKeys);
    if stamps != [] && r.Err? {
      var n := |stamps| - 1;
      var init, early := stamps[..n], tallies[..n];
      var ix, pix := Tallied(stamps, interval), Tallied(init, interval);
      var due := TallyDue(LastTally(init, interval), stamps[n], interval);
      assert ix == (if due then pix + [n] else pix);
      if Recorded(init, interval, early, flagKeys).Err? {
        RecordedErrWitness(init, interval, early, flagKeys);
        PrefixFails(tallies, n, pix, ix, flagKeys);
      } else {
        assert due && Snapshot(tallies[n], flagKeys).Err?;
        assert ix[|pix|] == n;
      }
    }
  }

  /** A failing tally among the first `n` still fails when the indices are extended. */
  lemma PrefixFails(tallies: seq<seq<map<string, Value>>>, n: nat, pix: seq<nat>, ix: seq<nat>, flagKeys: seq<string>)
    requires n <= |tallies| && |pix| <= |ix| && forall k :: 0 <= k < |pix| ==> ix[k] == pix[k]
    requires SnapshotFailsAt(tallies[..n], pix, flagKeys)
    ensures SnapshotFailsAt(tallies, ix, flagKeys)
  {
    var k :| 0 <= k < |pix| && pix[k] < n && Snapshot(tallies[..n][pix[k]], flagKeys).Err?;
    assert ix[k] == pix[k] && tallies[..n][pix[k]] == tallies[ix[k]];
  }

  /** `records[1:]`: the first snapshot is not written. */
  function AfterFirst(records: seq<SnapshotRecord>): (r: seq<SnapshotRecord>)
    ensures |records| > 0 ==> |r| == |records| - 1 && forall k :: 0 <= k < |r| ==> r[k] == records[k + 1]
    ensures |records| == 0 ==> r == []
  {
    if |records| == 0 then [] else records[1..]
  }

  /** `process_events` after the submissions: tallies on the schedule, records
      each snapshot, and writes all but the first. */
  method ProcessEvents(stamps: seq<real>, interval: real, tallies: seq<seq<map<string, Value>>>, flagKeys: seq<string>)
    returns (written: Result<seq<SnapshotRecord>>)
    requires |tallies| == |stamps|
    ensures Recorded(stamps, interval, tallies, flagKeys).Err? ==> written == Err(TypeError)
    ensures Recorded(stamps, interval, tallies, flagKeys).Ok? ==> written == Ok(AfterFirst(Recorded(stamps, interval, tallies, flagKeys).value))
  {
    var lastTallyTime: Option<real> := None;
    var snapshots: seq<SnapshotRecord> := [];
    var i := 0;
    while i < |stamps|
      invariant 0 <= i <= |stamps|
      invariant lastTallyTime == LastTally(stamps[..i], interval)
      invariant Recorded(stamps[..i], interval, tallies[..i], flagKeys) == Ok(snapshots)
    {
      assert stamps[..i + 1][..i] == stamps[..i];
      assert tallies[..i + 1][..i] == tallies[..i];
      if TallyDue(lastTallyTime, stamps[i], interval) {
        var snap := Snapshot(tallies[i], flagKeys);
        if snap.Err? {
          RecordedErrPersists(stamps, interval, tallies, flagKeys, i + 1);
          return Err(TypeError);
        }
        snapshots := snapshots + [SnapshotRecord(stamps[i], snap.value)];
        lastTallyTime := Some(stamps[i]);
      }
      i := i + 1;
    }
    assert stamps[..i] == stamps && tallies[..i] == tallies;
    written := Ok(AfterFirst(snapshots));
  }

  lemma {:induction false} RecordedErrPersists(stamps: seq<real>, interval: real, tallies: seq<seq<map<string, Value>>>, flagKeys: seq<string>, k: nat)
    requires |tallies| == |stamps| && k <= |stamps|
    requires Recorded(stamps[..k], interval, tallies[..k], flagKeys).Err?
    ensures Recorded(stamps, interval, tallies, flagKeys).Err?
    ensures Recorded(stamps, interval, tallies, flagKeys).exc == TypeError
    decreases |stamps| - k
  {
    if k < |stamps| {
      assert stamps[..k + 1][..k] == stamps[..k];
      assert tallies[..k + 1][..k] == tallies[..k];
      RecordedErrPersists(stamps, interval, tallies, flagKeys, k + 1);
    } else {
      assert stamps[..k] == stamps && tallies[..k] == tallies;
    }
  }
}
