/** The local commentary engine of services/geminiService.ts: the line the
    broadcast shows for a snapshot of the field, and the placeholder names. */
module Commentary {
  import opened RaceTypes

  /** Which of the source's lines is chosen. The mid-race and final-stretch
      lines are picked by index from lists of five, and some of them quote the
      leader's id. */
  datatype Line =
    | Waiting
    | EarlyRace
    | MidRace(phrase: nat, leader: int)
    | FinalStretch(phrase: nat, leader: int)

  const PHRASE_COUNT: nat := 5
  const EARLY_LIMIT: int := 30
  const FINAL_LIMIT: int := 85

  /** `Math.round`: halves round up. */
  function Round(x: real): (n: int)
    ensures n as real - 0.5 <= x < n as real + 0.5
  {
    (x + 0.5).Floor
  }

  /** `leader?.progress || 0`, the progress the percentage is taken from:
      the greatest progress in the field, or 0 for an empty field. */
  function LeaderProgress(rs: seq<Runner>): (p: real)
    ensures rs == [] ==> p == 0.0
    ensures rs != [] ==> exists i :: 0 <= i < |rs| && rs[i].progress == p
    ensures forall i :: 0 <= i < |rs| ==> rs[i].progress <= p
  {
    if rs == [] then 0.0
    else
      LeaderIsFirstAhead(rs);
      assert rs[0] in rs;
      Leader(rs).value.progress
  }

  /** getRaceCommentary (geminiService.ts:12-42); `rnd` is the Math.random()
      draw that picks a phrase. */
  function RaceCommentary(rs: seq<Runner>, status: RaceStatus, rnd: real): (line: Line)
    requires 0.0 <= rnd < 1.0
    ensures line == Waiting <==> status != Racing
    ensures status == Racing ==> (line == EarlyRace <==> LeaderProgress(rs) < 0.295)
    ensures status == Racing ==> (line.FinalStretch? <==> LeaderProgress(rs) >= 0.845)
    ensures rs == [] ==> line == Waiting || line == EarlyRace
    ensures line.MidRace? || line.FinalStretch? ==>
      line.phrase < PHRASE_COUNT &&
      line.phrase as real <= rnd * PHRASE_COUNT as real < line.phrase as real + 1.0 &&
      Leader(rs).Some? && line.leader == Leader(rs).value.id
  {
    if status != Racing then Waiting
    else
      var percent := Round(LeaderProgress(rs) * 100.0);
      var phrase := (rnd * PHRASE_COUNT as real).Floor;
      if percent < EARLY_LIMIT then EarlyRace
      else if percent < FINAL_LIMIT then MidRace(phrase, Leader(rs).value.id)
      else FinalStretch(phrase, Leader(rs).value.id)
  }

  /** The decimal digits of n, most significant first, as `${n}` prints them
      for n below 10^21 (from there JavaScript switches to exponent
      notation); names only reach n <= 2^32 - 1. */
  function Decimal(n: nat): (s: string)
    ensures |s| >= 1 && (forall k :: 0 <= k < |s| ==> '0' <= s[k] <= '9')
    ensures ParseDecimal(s) == n
    ensures n > 0 ==> s[0] != '0'
  {
    if n < 10 then [Digit(n)]
    else
      var s := Decimal(n / 10) + [Digit(n % 10)];
      assert s[..|s| - 1] == Decimal(n / 10);
      s
  }

  function Digit(d: nat): (c: char)
    requires d < 10
    ensures '0' <= c <= '9' && (c as int) - ('0' as int) == d
  {
    (('0' as int) + d) as char
  }

  /** Reads a string of digits back as a number. */
  function ParseDecimal(s: string): nat
    requires forall k :: 0 <= k < |s| ==> '0' <= s[k] <= '9'
  {
    if s == [] then 0
    else 10 * ParseDecimal(s[..|s| - 1]) + ((s[|s| - 1] as int) - ('0' as int))
  }

  const NAME_PREFIX: string := "Athlete "

  /** The name of runner number n: the prefix, then n in decimal. */
  function AthleteName(n: nat): (name: string)
    requires n >= 1
    ensures |name| > |NAME_PREFIX| && name[..|NAME_PREFIX|] == NAME_PREFIX
    ensures forall k :: |NAME_PREFIX| <= k < |name| ==> '0' <= name[k] <= '9'
    ensures ParseDecimal(name[|NAME_PREFIX|..]) == n
  {
    var name := NAME_PREFIX + Decimal(n);
    assert name[|NAME_PREFIX|..] == Decimal(n);
    name
  }

  /** The largest length a JavaScript array can have, 2^32 - 1. */
  const MAX_ARRAY_LENGTH: int := 0xFFFF_FFFF

  /** generateRunnerNames (geminiService.ts:8-10). `Array.from` clamps a
      negative length to zero and builds its result with `new Array(len)`,
      which throws a RangeError for a length above 2^32 - 1: the promise is
      then rejected, and the model returns None. */
  function RunnerNames(count: int): (names: Option<seq<string>>)
    ensures names.None? <==> count > MAX_ARRAY_LENGTH
    ensures names.Some? ==> |names.value| == if count < 0 then 0 else count
    ensures names.Some? ==> forall i :: 0 <= i < |names.value| ==>
      |names.value[i]| > |NAME_PREFIX| && names.value[i][..|NAME_PREFIX|] == NAME_PREFIX &&
      (forall k :: |NAME_PREFIX| <= k < |names.value[i]| ==> '0' <= names.value[i][k] <= '9') &&
      ParseDecimal(names.value[i][|NAME_PREFIX|..]) == i + 1
    ensures names.Some? ==> forall i, j :: 0 <= i < j < |names.value| ==> names.value[i] != names.value[j]
  {
    if count > MAX_ARRAY_LENGTH then None
    else
      var n := if count < 0 then 0 else count;
      Some(seq(n, i requires 0 <= i < n => AthleteName(i + 1)))
  }
}
