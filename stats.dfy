/**
 * The game statistics (src/datalayer/stats.py): the counters of one run, their
 * save-file dump and load, and the leaderboard logic over the contents of the
 * stats file. Reading and writing the file is left to the caller: the file
 * contents come in as a value (None when they do not decode as JSON) and the
 * new contents go out as one.
 */
module Stats {
  import opened Wrappers
  import opened JsonValue
  import Ordering

  /** The ten saved fields of a run. */
  datatype StatsRecord = StatsRecord(
    nickname: string, gold: int, rogueLevel: int, defeatedEnemies: int, eatenFood: int,
    usedPotions: int, usedScrolls: int, totalHits: int, missedHits: int, passedCells: int)

  const FreshRecord := StatsRecord("Rogue", 0, 1, 0, 0, 0, 0, 0, 0, 0)

  /** The keys `_load` reads, in the order it assigns them. */
  const DumpKeys: seq<string> := ["nickname", "gold", "rogue_level", "defeated_enemies", "eaten_food",
    "used_potions", "used_scrolls", "total_hits", "missed_hits", "passed_cells"]

  /** `_dump()` of a record. */
  function DumpRecord(r: StatsRecord): map<string, Value>
  {
    map["nickname" := Str(r.nickname), "gold" := Int(r.gold), "rogue_level" := Int(r.rogueLevel),
        "defeated_enemies" := Int(r.defeatedEnemies), "eaten_food" := Int(r.eatenFood),
        "used_potions" := Int(r.usedPotions), "used_scrolls" := Int(r.usedScrolls),
        "total_hits" := Int(r.totalHits), "missed_hits" := Int(r.missedHits),
        "passed_cells" := Int(r.passedCells)]
  }

  /** The record `_load(**d)` assigns, or the error of the first key it cannot read. */
  function ParseRecord(d: map<string, Value>): (r: Result<StatsRecord>)
    ensures r.Success? <==> GetStr(d, "nickname").Success? && forall k :: k in DumpKeys[1..] ==> GetInt(d, k).Success?
  {
    var nickname :- GetStr(d, "nickname");
    var gold :- GetInt(d, "gold");
    var rogueLevel :- GetInt(d, "rogue_level");
    var defeated :- GetInt(d, "defeated_enemies");
    var eaten :- GetInt(d, "eaten_food");
    var potions :- GetInt(d, "used_potions");
    var scrolls :- GetInt(d, "used_scrolls");
    var hits :- GetInt(d, "total_hits");
    var missed :- GetInt(d, "missed_hits");
    var cells :- GetInt(d, "passed_cells");
    Success(StatsRecord(nickname, gold, rogueLevel, defeated, eaten, potions, scrolls, hits, missed, cells))
  }

  /** `_load(**_dump())` restores all ten fields. */
  lemma DumpLoadRoundTrip(r: StatsRecord)
    ensures ParseRecord(DumpRecord(r)) == Success(r)
  {
  }

  /** Whether `_load` can read the i-th key of `DumpKeys`: a string nickname, an integer otherwise. */
  predicate ReadsKey(d: map<string, Value>, i: nat)
    requires i < |DumpKeys|
  {
    if i == 0 then GetStr(d, DumpKeys[0]).Success? else GetInt(d, DumpKeys[i]).Success?
  }

  /** The error of reading the i-th key of `DumpKeys`. */
  function ReadError(d: map<string, Value>, i: nat): Error
    requires i < |DumpKeys| && !ReadsKey(d, i)
  {
    if i == 0 then GetStr(d, DumpKeys[0]).error else GetInt(d, DumpKeys[i]).error
  }

  /** How many keys `_load` assigns before the first one it cannot read. */
  function Readable(d: map<string, Value>): (n: nat)
    ensures n <= |DumpKeys|
    ensures forall i :: 0 <= i < n ==> ReadsKey(d, i)
    ensures n < |DumpKeys| ==> !ReadsKey(d, n)
  {
    if !ReadsKey(d, 0) then 0
    else if !ReadsKey(d, 1) then 1
    else if !ReadsKey(d, 2) then 2
    else if !ReadsKey(d, 3) then 3
    else if !ReadsKey(d, 4) then 4
    else if !ReadsKey(d, 5) then 5
    else if !ReadsKey(d, 6) then 6
    else if !ReadsKey(d, 7) then 7
    else if !ReadsKey(d, 8) then 8
    else if !ReadsKey(d, 9) then 9
    else 10
  }

  /** The integer `_load` reads under the i-th key of `DumpKeys`. */
  function Counter(d: map<string, Value>, i: nat): int
    requires 0 < i < |DumpKeys| && ReadsKey(d, i)
  {
    GetInt(d, DumpKeys[i]).value
  }

  /** `rec` after `_load` has assigned the first n keys of `DumpKeys` from `d`. */
  function Assigned(rec: StatsRecord, d: map<string, Value>, n: nat): StatsRecord
    requires n <= |DumpKeys|
    requires forall i :: 0 <= i < n ==> ReadsKey(d, i)
  {
    StatsRecord(
      if n > 0 && ReadsKey(d, 0) then GetStr(d, DumpKeys[0]).value else rec.nickname,
      if n > 1 then Counter(d, 1) else rec.gold,
      if n > 2 then Counter(d, 2) else rec.rogueLevel,
      if n > 3 then Counter(d, 3) else rec.defeatedEnemies,
      if n > 4 then Counter(d, 4) else rec.eatenFood,
      if n > 5 then Counter(d, 5) else rec.usedPotions,
      if n > 6 then Counter(d, 6) else rec.usedScrolls,
      if n > 7 then Counter(d, 7) else rec.totalHits,
      if n > 8 then Counter(d, 8) else rec.missedHits,
      if n > 9 then Counter(d, 9) else rec.passedCells)
  }

  /**
   * A full read is exactly a successful `ParseRecord`, and assigns its record
   * whatever the fields held before; a partial one fails with the error of
   * the first key it cannot read.
   */
  lemma ReadableParse(rec: StatsRecord, d: map<string, Value>)
    ensures ParseRecord(d).Success? <==> Readable(d) == |DumpKeys|
    ensures ParseRecord(d).Success? ==> Assigned(rec, d, |DumpKeys|) == ParseRecord(d).value
    ensures ParseRecord(d).Failure? ==> ParseRecord(d).error == ReadError(d, Readable(d))
  {
  }

  predicate Holds(d: map<string, Value>, key: string, v: Value)
  {
    key in d && d[key] == v
  }

  class RogueStats {
    var nickname: string
    var gold: int
    var rogueLevel: int
    var defeatedEnemies: int
    var eatenFood: int
    var usedPotions: int
    var usedScrolls: int
    var totalHits: int
    var missedHits: int
    var passedCells: int

    function Record(): StatsRecord
      reads this
    {
      StatsRecord(nickname, gold, rogueLevel, defeatedEnemies, eatenFood, usedPotions, usedScrolls,
                  totalHits, missedHits, passedCells)
    }

    constructor()
      ensures Record() == FreshRecord
    {
      nickname, gold, rogueLevel := "Rogue", 0, 1;
      defeatedEnemies, eatenFood, usedPotions, usedScrolls := 0, 0, 0, 0;
      totalHits, missedHits, passedCells := 0, 0, 0;
    }

    /** The leaderboard record of this run: marked as the last one, with every counter. */
    function FormStatsDict(): (d: map<string, Value>)
      reads this
      ensures Holds(d, "last_record", Bool(true))
      ensures Holds(d, "Никнейм", Str(nickname)) && Holds(d, "Золото", Int(gold))
      ensures Holds(d, "Уровень подземелья", Int(rogueLevel)) && Holds(d, "Поверженные враги", Int(defeatedEnemies))
      ensures Holds(d, "Съеденной еды", Int(eatenFood)) && Holds(d, "Использованных зелий", Int(usedPotions))
      ensures Holds(d, "Использованных свитков", Int(usedScrolls)) && Holds(d, "Нанесенных ударов", Int(totalHits))
      ensures Holds(d, "Промахов", Int(missedHits)) && Holds(d, "Пройденных клеток", Int(passedCells))
    {
      map["last_record" := Bool(true), "Никнейм" := Str(nickname), "Золото" := Int(gold),
          "Уровень подземелья" := Int(rogueLevel), "Поверженные враги" := Int(defeatedEnemies),
          "Съеденной еды" := Int(eatenFood), "Использованных зелий" := Int(usedPotions),
          "Использованных свитков" := Int(usedScrolls), "Нанесенных ударов" := Int(totalHits),
          "Промахов" := Int(missedHits), "Пройденных клеток" := Int(passedCells)]
    }

    function Dump(): map<string, Value>
      reads this
    {
      DumpRecord(Record())
    }

    /**
     * `_load(**d)`: assigns the fields in order and stops at the first key it
     * cannot read, leaving the fields before it assigned.
     */
    method Load(d: map<string, Value>) returns (r: Result<()>)
      modifies this
      ensures r.Success? <==> ParseRecord(d).Success?
      ensures r.Success? ==> Record() == ParseRecord(d).value
      ensures r.Failure? ==> r.error == ParseRecord(d).error
      ensures r.Success? <==> Readable(d) == |DumpKeys|
      ensures r.Failure? ==> r.error == ReadError(d, Readable(d))
      ensures Record() == Assigned(old(Record()), d, Readable(d))
    {
      ReadableParse(Record(), d);
      r := AssignHead(d);
      if r.Failure? {
        return;
      }
      r := AssignTail(d);
    }

    /** The first five assignments of `_load`, up to `eaten_food`, stopping at a key it cannot read. */
    method AssignHead(d: map<string, Value>) returns (r: Result<()>)
      modifies this
      ensures r.Success? <==> Readable(d) >= 5
      ensures r.Failure? ==> r.error == ReadError(d, Readable(d))
      ensures Record() == Assigned(old(Record()), d, if Readable(d) < 5 then Readable(d) else 5)
    {
      nickname :- GetStr(d, "nickname");
      gold :- GetInt(d, "gold");
      rogueLevel :- GetInt(d, "rogue_level");
      defeatedEnemies :- GetInt(d, "defeated_enemies");
      eatenFood :- GetInt(d, "eaten_food");
      return Success(());
    }

    /** The last five assignments of `_load`, once the first five are made. */
    method AssignTail(d: map<string, Value>) returns (r: Result<()>)
      requires Readable(d) >= 5 && Record() == Assigned(Record(), d, 5)
      modifies this
      ensures r.Success? <==> Readable(d) == |DumpKeys|
      ensures r.Failure? ==> r.error == ReadError(d, Readable(d))
      ensures Record() == Assigned(old(Record()), d, Readable(d))
    {
      usedPotions :- GetInt(d, "used_potions");
      usedScrolls :- GetInt(d, "used_scrolls");
      totalHits :- GetInt(d, "total_hits");
      missedHits :- GetInt(d, "missed_hits");
      passedCells :- GetInt(d, "passed_cells");
      return Success(());
    }

    /**
     * `dump_json_stats`: every stored record gets `last_record = False` and this
     * run's record is appended last; returns the new file contents. An
     * undecodable file counts as no records.
     */
    method DumpJsonStats(content: Option<seq<Value>>) returns (r: Result<seq<Value>>)
      ensures var data := if content.Some? then content.value else [];
        && (r.Success? <==> forall i :: 0 <= i < |data| ==> data[i].Dict?)
        && (r.Success? ==>
             && |r.value| == |data| + 1
             && r.value[|data|] == Dict(FormStatsDict())
             && forall i :: 0 <= i < |data| ==> r.value[i] == ClearLastRecord(data[i]))
    {
      var data := if content.Some? then content.value else [];
      var out :- ClearAll(data);
      var last := Dict(FormStatsDict());
      assert forall j :: 0 <= j < |data| ==> (out + [last])[j] == out[j];
      return Success(out + [last]);
    }
  }

  /** The loop of `dump_json_stats` over the stored records: each must be a dictionary. */
  method ClearAll(data: seq<Value>) returns (r: Result<seq<Value>>)
    ensures r.Success? <==> forall i :: 0 <= i < |data| ==> data[i].Dict?
    ensures r.Success? ==> |r.value| == |data| && forall i :: 0 <= i < |data| ==> r.value[i] == ClearLastRecord(data[i])
  {
    var out: seq<Value> := [];
    for i := 0 to |data|
      invariant |out| == i
      invariant forall j :: 0 <= j < i ==> data[j].Dict? && out[j] == ClearLastRecord(data[j])
    {
      if !data[i].Dict? {
        return Failure(TypeError("record is not a dictionary"));
      }
      out := out + [ClearLastRecord(data[i])];
    }
    return Success(out);
  }

  /** `dct["last_record"] = False` on a stored record. */
  function ClearLastRecord(v: Value): (r: Value)
    requires v.Dict?
    ensures r.Dict? && r.fields.Keys == v.fields.Keys + {"last_record"}
    ensures r.fields["last_record"] == Bool(false)
    ensures forall k :: k in v.fields && k != "last_record" ==> r.fields[k] == v.fields[k]
  {
    Dict(v.fields["last_record" := Bool(false)])
  }

  /** A stored record that can be searched by nickname and ranked by gold. */
  predicate WellFormed(v: Value)
  {
    Ranked(v) && "Никнейм" in v.fields
  }

  /** A stored record that can be ranked: a dictionary holding its gold. */
  predicate Ranked(v: Value)
  {
    v.Dict? && GetInt(v.fields, "Золото").Success?
  }

  predicate HasNickname(v: Value, nickname: string)
  {
    v.Dict? && "Никнейм" in v.fields && v.fields["Никнейм"] == Str(nickname)
  }

  /**
   * `check_nickname`: False as soon as a stored record has that nickname,
   * True when none has or the file does not decode.
   */
  function CheckNickname(content: Option<seq<Value>>, nickname: string): (r: Result<bool>)
    ensures content.None? ==> r == Success(true)
    ensures content.Some? && (forall i :: 0 <= i < |content.value| ==> WellFormed(content.value[i])) ==>
      r == Success(!exists i :: 0 <= i < |content.value| && HasNickname(content.value[i], nickname))
    ensures r == Success(false) ==>
      content.Some? && exists i :: 0 <= i < |content.value| && HasNickname(content.value[i], nickname)
  {
    if content.None? then Success(true) else FindNickname(content.value, nickname)
  }

  function FindNickname(data: seq<Value>, nickname: string): (r: Result<bool>)
    ensures (forall i :: 0 <= i < |data| ==> WellFormed(data[i])) ==>
      r == Success(!exists i :: 0 <= i < |data| && HasNickname(data[i], nickname))
    ensures r == Success(false) ==> exists i :: 0 <= i < |data| && HasNickname(data[i], nickname)
  {
    if |data| == 0 then Success(true)
    else if !data[0].Dict? then Failure(TypeError("record is not a dictionary"))
    else if "Никнейм" !in data[0].fields then Failure(KeyError("Никнейм"))
    else if data[0].fields["Никнейм"] == Str(nickname) then Success(false)
    else
      var r := FindNickname(data[1..], nickname);
      assert forall i :: 0 < i < |data| ==> data[i] == data[1..][i - 1];
      r
  }

  function GoldOf(v: Value): int
  {
    if v.Dict? && GetInt(v.fields, "Золото").Success? then GetInt(v.fields, "Золото").value else 0
  }

  /** "Comes first" in the leaderboard: more gold. */
  predicate RichAfter(a: Value, b: Value)
  {
    GoldOf(a) > GoldOf(b)
  }

  lemma RichAfterIsStrictOrder(s: seq<Value>)
    ensures Ordering.StrictOrderOn(s, RichAfter)
  {
  }

  /** The stable descending sort by gold, one record inserted at a time. */
  function SortByGold(data: seq<Value>): seq<Value>
  {
    if |data| == 0 then []
    else Ordering.Insert(SortByGold(data[..|data| - 1]), data[|data| - 1], RichAfter)
  }

  /**
   * `get_sorted_stats`: the stored records ordered by gold, non-increasing;
   * an undecodable file gives no records.
   */
  function SortedStats(content: Option<seq<Value>>): (r: Result<seq<Value>>)
    ensures content.Some? ==> (r.Success? <==> forall i :: 0 <= i < |content.value| ==> Ranked(content.value[i]))
  {
    if content.None? then Success([])
    else
      var _ :- GoldKeys(content.value);
      Success(SortByGold(content.value))
  }

  /**
   * The sort key `dct["Золото"]` of each record in turn: the first record
   * that is not a dictionary, or has no gold, stops the sort.
   */
  function GoldKeys(data: seq<Value>): (r: Result<()>)
    ensures r.Success? <==> forall i :: 0 <= i < |data| ==> Ranked(data[i])
  {
    if |data| == 0 then Success(())
    else if !data[0].Dict? then Failure(TypeError("record is not a dictionary"))
    else
      var _ :- GetInt(data[0].fields, "Золото");
      var r := GoldKeys(data[1..]);
      assert forall i :: 0 < i < |data| ==> data[i] == data[1..][i - 1];
      r
  }

  lemma {:induction false} SortByGoldCorrect(data: seq<Value>)
    ensures |SortByGold(data)| == |data|
    ensures multiset(SortByGold(data)) == multiset(data)
    ensures Ordering.Sorted(SortByGold(data), RichAfter)
  {
    if |data| > 0 {
      var init, last := data[..|data| - 1], data[|data| - 1];
      SortByGoldCorrect(init);
      InsertByGold(SortByGold(init), last);
      assert data == init + [last];
    }
  }

  lemma InsertByGold(s: seq<Value>, x: Value)
    requires Ordering.Sorted(s, RichAfter)
    ensures var r := Ordering.Insert(s, x, RichAfter);
      Ordering.Sorted(r, RichAfter) && multiset(r) == multiset(s) + multiset{x} && |r| == |s| + 1
  {
    RichAfterIsStrictOrder(s + [x]);
    Ordering.InsertSorted(s, x, RichAfter);
  }

  /** The leaderboard holds the stored records, richest first. */
  lemma SortedStatsOrdered(content: Option<seq<Value>>)
    requires SortedStats(content).Success?
    ensures var r := SortedStats(content).value;
      && (content.None? ==> r == [])
      && (content.Some? ==> multiset(r) == multiset(content.value))
      && forall i, j :: 0 <= i < j < |r| ==> GoldOf(r[i]) >= GoldOf(r[j])
  {
    if content.Some? {
      SortByGoldCorrect(content.value);
    }
  }
}
