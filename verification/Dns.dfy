/** DNS: names and records of a response, sections 4.1.3 and 4.1.4 of RFC 1035. */
module Dns {
  import opened Options
  import opened Bytes
  import opened Checksum

  const HEADER_LEN: nat := 12
  const COMPRESSED: nat := 192  // both top bits set
  const TYPE_A: nat := 1

  /** The position behind the name at i; None when it runs off the end. */
  function SkipName(p: Bytes, i: nat): (r: Option<nat>)
    ensures r.Some? ==> i < r.value <= |p| + 1
    decreases |p| - i
  {
    if i >= |p| then None
    else
      var b := p[i] as nat;
      if b >= COMPRESSED then Some(i + 2)
      else if b == 0 then Some(i + 1)
      else SkipName(p, i + 1 + b)
  }

  /** skip_name, as the loop it is. */
  method SkipNameLoop(p: Bytes, start: nat) returns (r: Option<nat>)
    ensures r == SkipName(p, start)
  {
    var i := start;
    while true
      invariant SkipName(p, start) == SkipName(p, i)
      decreases |p| - i
    {
      if i >= |p| {
        return None;
      }
      var b := p[i] as nat;
      if b >= COMPRESSED {
        return Some(i + 2);
      }
      if b == 0 {
        return Some(i + 1);
      }
      i := i + 1 + b;
    }
  }

  /** Past n questions. */
  function SkipQuestions(p: Bytes, i: nat, n: nat): Option<nat>
    decreases n
  {
    if n == 0 then Some(i)
    else match SkipName(p, i) case None => None case Some(j) => SkipQuestions(p, j + 4, n - 1)
  }

  /** The first usable address among n answers from i on. */
  function FirstAddress(p: Bytes, i: nat, n: nat): (r: Option<Bytes>)
    ensures r.Some? ==> |r.value| == 4
    decreases n
  {
    if n == 0 then None
    else
      match SkipName(p, i)
      case None => None
      case Some(j) =>
        if j + 10 > |p| then None
        else
          var len := ReadBe16(p, j + 8);
          if ReadBe16(p, j) == TYPE_A && len == 4 && j + 14 <= |p| then Some(p[j + 10..j + 14])
          else FirstAddress(p, j + 10 + len, n - 1)
  }

  function ParseResponse(p: Bytes, txid: nat): Option<Bytes> {
    if |p| < HEADER_LEN || ReadBe16(p, 0) != txid || ReadBe16(p, 2) < 0x8000 || ReadBe16(p, 6) == 0 then None
    else
      match SkipQuestions(p, HEADER_LEN, ReadBe16(p, 4))
      case None => None
      case Some(i) => FirstAddress(p, i, ReadBe16(p, 6))
  }

  /** parse_response, with its two loops. */
  method ParseResponseLoop(p: Bytes, txid: nat) returns (r: Option<Bytes>)
    ensures r == ParseResponse(p, txid)
  {
    if |p| < HEADER_LEN || ReadBe16(p, 0) != txid {
      return None;
    }
    if ReadBe16(p, 2) / 0x8000 % 2 == 0 {
      return None;
    }
    var qdcount, ancount := ReadBe16(p, 4), ReadBe16(p, 6);
    if ancount == 0 {
      return None;
    }
    var i := SkipQuestionsLoop(p, qdcount);
    if i.None? {
      return None;
    }
    r := FirstAddressLoop(p, i.value, ancount);
  }

  method SkipQuestionsLoop(p: Bytes, qdcount: nat) returns (r: Option<nat>)
    ensures r == SkipQuestions(p, HEADER_LEN, qdcount)
  {
    var i: nat := HEADER_LEN;
    for q := 0 to qdcount
      invariant SkipQuestions(p, HEADER_LEN, qdcount) == SkipQuestions(p, i, qdcount - q)
    {
      var j := SkipNameLoop(p, i);
      if j.None? {
        return None;
      }
      i := j.value + 4;
    }
    return Some(i);
  }

  method FirstAddressLoop(p: Bytes, first: nat, ancount: nat) returns (r: Option<Bytes>)
    ensures r == FirstAddress(p, first, ancount)
  {
    hide SkipName;
    var i: nat := first;
    for a := 0 to ancount
      invariant FirstAddress(p, first, ancount) == FirstAddress(p, i, ancount - a)
    {
      var j := SkipNameLoop(p, i);
      if j.None? || j.value + 10 > |p| {
        return None;
      }
      var atype, rdlength := ReadBe16(p, j.value), ReadBe16(p, j.value + 8);
      i := j.value + 10;
      if atype == TYPE_A && rdlength == 4 && i + 4 <= |p| {
        return Some(p[i..i + 4]);
      }
      i := i + rdlength;
    }
    return None;
  }

  // ---- well-formed responses ----

  /** A name: labels, then the root or a compression pointer. The code takes every
      length below the pointer mark, not only up to 63. */
  datatype Name = Root | Pointer(hi: Byte, lo: Byte) | Label(text: Bytes, rest: Name)

  predicate ProperName(n: Name) {
    match n
    case Root => true
    case Pointer(hi, _) => hi as nat >= COMPRESSED
    case Label(text, rest) => 1 <= |text| < COMPRESSED && ProperName(rest)
  }

  function NameBytes(n: Name): Bytes {
    match n
    case Root => [NUL]
    case Pointer(hi, lo) => [hi, lo]
    case Label(text, rest) => [Byte8(|text|)] + text + NameBytes(rest)
  }

  datatype Question = Question(name: Name, fields: Bytes)
  datatype Answer = Answer(name: Name, atype: nat, fields: Bytes, data: Bytes)

  predicate ProperQuestion(q: Question) {
    ProperName(q.name) && |q.fields| == 4
  }

  predicate ProperAnswer(a: Answer) {
    ProperName(a.name) && a.atype < U16 && |a.fields| == 6 && |a.data| < U16
  }

  function QuestionBytes(qs: seq<Question>): Bytes {
    if |qs| == 0 then [] else NameBytes(qs[0].name) + qs[0].fields + QuestionBytes(qs[1..])
  }

  function AnswerBytes(answers: seq<Answer>): Bytes {
    if |answers| == 0 then []
    else NameBytes(answers[0].name) + RecordBytes(answers[0]) + AnswerBytes(answers[1..])
  }

  /** Type, class and TTL, length, data. */
  function RecordBytes(a: Answer): (r: Bytes)
    ensures |r| == 4 + |a.fields| + |a.data|
  {
    Be16(a.atype) + a.fields + Be16(|a.data|) + a.data
  }

  predicate IsAddress(a: Answer) {
    a.atype == TYPE_A && |a.data| == 4
  }

  function FirstA(answers: seq<Answer>): Option<Bytes> {
    if |answers| == 0 then None else if IsAddress(answers[0]) then Some(answers[0].data) else FirstA(answers[1..])
  }

  /** A proper name is skipped to its end, wherever it stands. */
  lemma {:induction false} SkipIs(before: Bytes, n: Name, rest: Bytes)
    requires ProperName(n)
    ensures SkipName(before + NameBytes(n) + rest, |before|) == Some(|before| + |NameBytes(n)|)
    decreases n
  {
    var p, i := before + NameBytes(n) + rest, |before|;
    match n
    case Root => assert p[i] == NUL;
    case Pointer(hi, lo) => assert p[i] == hi;
    case Label(text, more) =>
      var before' := before + [Byte8(|text|)] + text;
      assert p[i] == Byte8(|text|);
      assert p == before' + NameBytes(more) + rest;
      SkipIs(before', more, rest);
  }

  lemma {:induction false} QuestionsSkipped(before: Bytes, qs: seq<Question>, rest: Bytes)
    requires forall k :: 0 <= k < |qs| ==> ProperQuestion(qs[k])
    ensures SkipQuestions(before + QuestionBytes(qs) + rest, |before|, |qs|) == Some(|before| + |QuestionBytes(qs)|)
    decreases |qs|
  {
    hide NameBytes, SkipName;
    if |qs| > 0 {
      assert ProperQuestion(qs[0]);
      var name, fields, more := NameBytes(qs[0].name), qs[0].fields, QuestionBytes(qs[1..]);
      Regroup(before, name, fields, more, rest);
      SkipIs(before, qs[0].name, fields + more + rest);
      QuestionsSkipped(before + name + fields, qs[1..], rest);
    }
  }

  lemma Regroup(a: Bytes, b: Bytes, c: Bytes, d: Bytes, e: Bytes)
    ensures a + (b + c + d) + e == (a + b + c) + d + e == a + b + (c + d + e) == a + b + c + (d + e)
  {
  }

  /** The fields of a record at its place. */
  lemma RecordReads(before: Bytes, a: Answer, rest: Bytes)
    requires ProperAnswer(a)
    ensures var p := before + RecordBytes(a) + rest;
            var j := |before|;
            ReadBe16(p, j) == a.atype && ReadBe16(p, j + 8) == |a.data| && p[j + 10..j + 10 + |a.data|] == a.data
  {
    var p, j := before + RecordBytes(a) + rest, |before|;
    var r := RecordBytes(a);
    assert p[j] == r[0] == Be16(a.atype)[0] && p[j + 1] == r[1] == Be16(a.atype)[1];
    assert p[j + 8] == r[8] == Be16(|a.data|)[0] && p[j + 9] == r[9] == Be16(|a.data|)[1];
    Be16RoundTrip(a.atype);
    Be16RoundTrip(|a.data|);
    assert p[j + 10..j + 10 + |a.data|] == r[10..] == a.data;
  }

  lemma {:induction false} AnswersWalked(before: Bytes, answers: seq<Answer>, rest: Bytes)
    requires forall k :: 0 <= k < |answers| ==> ProperAnswer(answers[k])
    ensures FirstAddress(before + AnswerBytes(answers) + rest, |before|, |answers|) == FirstA(answers)
    decreases |answers|
  {
    hide NameBytes, SkipName, RecordBytes, ReadBe16;
    if |answers| > 0 {
      var a := answers[0];
      assert ProperAnswer(a);
      var name, record, more := NameBytes(a.name), RecordBytes(a), AnswerBytes(answers[1..]);
      Regroup(before, name, record, more, rest);
      SkipIs(before, a.name, record + more + rest);
      RecordReads(before + name, a, more + rest);
      AnswersWalked(before + name + record, answers[1..], rest);
    }
  }

  function ResponseHeader(txid: nat, flags: nat, qdcount: nat, ancount: nat, others: Bytes): (r: Bytes)
    requires |others| == 4
    ensures |r| == HEADER_LEN
  {
    Be16(txid) + Be16(flags) + Be16(qdcount) + Be16(ancount) + others
  }

  lemma HeaderReads(txid: nat, flags: nat, qdcount: nat, ancount: nat, others: Bytes, rest: Bytes)
    requires |others| == 4 && txid < U16 && flags < U16 && qdcount < U16 && ancount < U16
    ensures var p := ResponseHeader(txid, flags, qdcount, ancount, others) + rest;
            ReadBe16(p, 0) == txid && ReadBe16(p, 2) == flags && ReadBe16(p, 4) == qdcount && ReadBe16(p, 6) == ancount
  {
    Be16RoundTrip(txid);
    Be16RoundTrip(flags);
    Be16RoundTrip(qdcount);
    Be16RoundTrip(ancount);
  }

  /** On every well-formed response with the right id the parser gives the first
      record of type 1 with four bytes of data, or None when there is none. */
  lemma ResponseIs(txid: nat, flags: nat, qs: seq<Question>, answers: seq<Answer>, others: Bytes, rest: Bytes,
                   want: nat)
    requires txid < U16 && flags < U16 && |qs| < U16 && |answers| < U16 && |others| == 4
    requires forall k :: 0 <= k < |qs| ==> ProperQuestion(qs[k])
    requires forall k :: 0 <= k < |answers| ==> ProperAnswer(answers[k])
    ensures ParseResponse(ResponseHeader(txid, flags, |qs|, |answers|, others)
                          + QuestionBytes(qs) + AnswerBytes(answers) + rest, want)
         == if want == txid && flags >= 0x8000 then FirstA(answers) else None
  {
    hide ReadBe16, SkipQuestions, FirstAddress, QuestionBytes, AnswerBytes, ResponseHeader;
    var h := ResponseHeader(txid, flags, |qs|, |answers|, others);
    var p := h + QuestionBytes(qs) + AnswerBytes(answers) + rest;
    assert p == h + (QuestionBytes(qs) + AnswerBytes(answers) + rest);
    HeaderReads(txid, flags, |qs|, |answers|, others, QuestionBytes(qs) + AnswerBytes(answers) + rest);
    assert p == h + QuestionBytes(qs) + (AnswerBytes(answers) + rest);
    QuestionsSkipped(h, qs, AnswerBytes(answers) + rest);
    AnswersWalked(h + QuestionBytes(qs), answers, rest);
  }
}
