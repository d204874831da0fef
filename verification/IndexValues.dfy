/**
 The members that `CreateIndex` (redis.go) writes into the search indexes: the printed
 value, the mark `::` and the id of the resource.
 */
module IndexValues {
  import opened Strings
  import opened Decimals

  /** A value handed to the index; `Other` stands for the types the code does not support. */
  datatype Value =
    | IntV(n: int)
    | FloatV(d: Decimal)
    | TextV(s: string)
    | TextsV(ss: seq<string>)
    | FloatsV(ds: seq<Decimal>)
    | Other

  /** A supported value; numbers in decimal notation. */
  predicate Proper(v: Value) {
    match v
    case FloatV(d) => d.Valid()
    case FloatsV(ds) => forall i :: 0 <= i < |ds| ==> ds[i].Valid()
    case Other => false
    case _ => true
  }

  /** `strings.ToLower` on ASCII text. */
  function Lower(s: string): (r: string)
    ensures |r| == |s|
  {
    seq(|s|, i requires 0 <= i < |s| => if 'A' <= s[i] <= 'Z' then (s[i] as int + 32) as char else s[i])
  }

  function Texts(vs: seq<Decimal>): (ts: seq<string>)
    ensures |ts| == |vs| && forall i :: 0 <= i < |vs| ==> ts[i] == Print(vs[i])
  {
    if vs == [] then [] else [Print(vs[0])] + Texts(vs[1..])
  }

  /** The text of a value; an unsupported value is never written. */
  function ValueText(v: Value): string {
    match v
    case IntV(n) => IntText(n)
    case FloatV(d) => Print(d)
    case TextV(s) => Lower(s)
    case TextsV(ss) => Lower("[" + Join(ss, " ") + "]")
    case FloatsV(ds) => "[" + Join(Texts(ds), " ") + "]"
    case Other => ""
  }

  /** Numbers are their own scores; everything else is written with score 0. */
  function Score(v: Value): string {
    match v
    case IntV(n) => IntText(n)
    case FloatV(d) => Print(d)
    case _ => "0"
  }

  function Member(v: Value, id: string): string { ValueText(v) + "::" + id }

  // ---------------------------------------------------------------- what the texts say

  const CAPITALS := "ABCDEFGHIJKLMNOPQRSTUVWXYZ"
  const SMALLS := "abcdefghijklmnopqrstuvwxyz"

  /** Each capital becomes its small letter, and every other character stays. */
  lemma LowerLetters(s: string, i: nat)
    requires i < |s|
    ensures forall k :: 0 <= k < 26 && s[i] == CAPITALS[k] ==> Lower(s)[i] == SMALLS[k]
    ensures s[i] !in CAPITALS ==> Lower(s)[i] == s[i]
  {
    assert |CAPITALS| == 26 && |SMALLS| == 26;
    assert forall k :: 0 <= k < 26 ==> CAPITALS[k] == ('A' as int + k) as char && SMALLS[k] == ('a' as int + k) as char;
    var k := s[i] as int - 'A' as int;
    if 0 <= k < 26 {
      assert CAPITALS[k] == s[i];
    }
  }

  /** The number a value stands for. */
  function Number(v: Value): real
    requires (v.IntV? || v.FloatV?) && Proper(v)
  {
    match v
    case IntV(n) => n as real
    case FloatV(d) => d.Value()
  }

  /** A number is read back from its member, and is its own score; everything else has score 0. */
  lemma NumberMember(v: Value, id: string)
    requires Proper(v)
    ensures v.IntV? || v.FloatV? ==>
              var t := Split(Member(v, id), "::")[0];
              Parse(t).Some? && Parse(t).value.Value() == Number(v) && Score(v) == t
    ensures !v.IntV? && !v.FloatV? ==> Score(v) == "0"
  {
    hide Parse, Split, Print, NatText;
    if v.IntV? {
      IntTextParses(v.n);
      NoColon(NatText(if v.n < 0 then -v.n else v.n));
      SplitMark(IntText(v.n), id);
    } else if v.FloatV? {
      PrintParse(v.d);
      PrintChars(v.d, ':');
      SplitMark(Print(v.d), id);
    }
  }

  lemma NoColon(s: string)
    requires Digits(s)
    ensures ':' !in s && ':' !in "-" + s
  {
  }

  lemma LowerKeepsOut(s: string, c: char)
    requires c !in s && !('a' <= c <= 'z')
    ensures c !in Lower(s)
  {
  }

  /** A text without a colon is read back in small letters. */
  lemma TextMember(s: string, id: string)
    requires ':' !in s
    ensures Split(Member(TextV(s), id), "::")[0] == Lower(s)
  {
    hide Split, Lower;
    LowerKeepsOut(s, ':');
    SplitMark(Lower(s), id);
  }

  lemma LowerConcat(s: string, t: string)
    ensures Lower(s + t) == Lower(s) + Lower(t)
  {
  }

  function LowerAll(ss: seq<string>): (ts: seq<string>)
    ensures |ts| == |ss| && forall i :: 0 <= i < |ss| ==> ts[i] == Lower(ss[i])
  {
    if ss == [] then [] else [Lower(ss[0])] + LowerAll(ss[1..])
  }

  lemma {:induction false} LowerJoin(ss: seq<string>)
    ensures Lower(Join(ss, " ")) == Join(LowerAll(ss), " ")
  {
    hide Lower;
    assert Lower("") == "" && Lower(" ") == " " by { LowerSpace(); }
    if |ss| == 1 {
      assert LowerAll(ss) == [Lower(ss[0])];
    } else if |ss| > 1 {
      LowerJoin(ss[1..]);
      LowerConcat(ss[0] + " ", Join(ss[1..], " "));
      LowerConcat(ss[0], " ");
      assert LowerAll(ss)[1..] == LowerAll(ss[1..]);
    }
  }

  lemma LowerSpace()
    ensures Lower("") == "" && Lower(" ") == " " && Lower("[") == "[" && Lower("]") == "]"
  {
  }

  /** A list of texts free of the marks is read back in small letters, text by text. */
  lemma TextsMember(ss: seq<string>, id: string)
    requires ss != [] && forall s :: s in ss ==> ':' !in s && ' ' !in s
    ensures Split(Member(TextsV(ss), id), "::")[0] == "[" + Join(LowerAll(ss), " ") + "]"
    ensures Split(Join(LowerAll(ss), " "), " ") == LowerAll(ss)
  {
    hide Split, Lower, Join;
    forall t | t in LowerAll(ss) ensures ':' !in t && ' ' !in t {
      var i :| 0 <= i < |ss| && LowerAll(ss)[i] == t;
      LowerKeepsOut(ss[i], ':');
      LowerKeepsOut(ss[i], ' ');
    }
    var body := Join(LowerAll(ss), " ");
    JoinAbsent(LowerAll(ss), " ", ':');
    SplitJoin(LowerAll(ss), ' ');
    LowerJoin(ss);
    LowerSpace();
    LowerConcat("[" + Join(ss, " "), "]");
    LowerConcat("[", Join(ss, " "));
    SplitMark("[" + body + "]", id);
  }
}
