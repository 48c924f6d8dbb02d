/**
 Task-run ids and the parser of typed ids, on top of the codec.
 */
module TaskRunIds {
  import opened Domain
  import opened IdCodec

  const MAX_ID_LEN := 96
  const MAX_PAYLOAD := 26
  const TASK_RUN := "tr_"
  const RUN := "rn_"
  const COLON: Byte := ':' as int

  /** What identifies a task's record: run id and task name, joined by two colons. */
  function Payload(run: seq<Byte>, task: seq<Byte>): seq<Byte> {
    run + [COLON, COLON] + task
  }

  function TaskRunId(run: seq<Byte>, task: seq<Byte>): string {
    TASK_RUN + Encoded(Payload(run, task))
  }

  /** The parser, for ids of any kind whose payload limit is 26 bytes. */
  function Parse(prefix: string, value: string): Result<string, IdError> {
    if !(prefix <= value) then Err(WrongPrefix)
    else if |value| > MAX_ID_LEN then Err(TooLong)
    else if value[|prefix|..] == "" then Err(Malformed)
    else
      match Decoded(value[|prefix|..], MAX_PAYLOAD)
      case Ok(_) => Ok(value)
      case Err(e) => Err(e)
  }

  // ----- one id per run and task

  lemma PayloadInjective(r: seq<Byte>, t: seq<Byte>, r': seq<Byte>, t': seq<Byte>)
    requires COLON !in r && COLON !in r'
    requires Payload(r, t) == Payload(r', t')
    ensures r == r' && t == t'
  {
    var p, p' := Payload(r, t), Payload(r', t');
    assert p[|r|] == COLON && p'[|r'|] == COLON;
    assert forall i :: 0 <= i < |r| ==> p[i] == r[i] && r[i] in r;
    assert forall i :: 0 <= i < |r'| ==> p'[i] == r'[i] && r'[i] in r';
    assert |r| == |r'|;
    assert r == p[..|r|] && r' == p'[..|r'|];
    assert t == p[|r| + 2..] && t' == p'[|r'| + 2..];
  }

  /** Task-run ids of runs whose ids hold no colon are distinct for distinct runs or tasks. */
  lemma TaskRunIdInjective(r: seq<Byte>, t: seq<Byte>, r': seq<Byte>, t': seq<Byte>)
    requires COLON !in r && COLON !in r'
    requires TaskRunId(r, t) == TaskRunId(r', t')
    ensures r == r' && t == t'
  {
    var p, p' := Payload(r, t), Payload(r', t');
    assert TaskRunId(r, t)[|TASK_RUN|..] == Encoded(p) && TaskRunId(r', t')[|TASK_RUN|..] == Encoded(p');
    DecodeEncode(p, |p| + |p'|);
    DecodeEncode(p', |p| + |p'|);
    PayloadInjective(r, t, r', t');
  }

  predicate IsAscii(text: string) {
    forall i :: 0 <= i < |text| ==> text[i] as int < 128
  }

  function AsBytes(text: string): seq<Byte>
    requires IsAscii(text)
  {
    seq(|text|, i requires 0 <= i < |text| => text[i] as int)
  }

  /** The parser lets no colon into a run id. */
  lemma ParsedRunIdHasNoColon(v: string)
    requires Parse(RUN, v).Ok?
    ensures IsAscii(v) && COLON !in AsBytes(v)
  {
    forall i | 0 <= i < |v| ensures v[i] as int < 128 && v[i] != ':' {
      if i < |RUN| {
        assert v[i] == RUN[i];
      } else {
        assert v[i] == v[|RUN|..][i - |RUN|] && CharDigit(v[i]).Some?;
      }
    }
  }

  /** So task-run ids of parsed run ids are distinct for distinct runs or tasks. */
  lemma TaskRunIdsOfParsedRuns(v: string, t: seq<Byte>, v': string, t': seq<Byte>)
    requires Parse(RUN, v).Ok? && Parse(RUN, v').Ok? && IsAscii(v) && IsAscii(v')
    requires TaskRunId(AsBytes(v), t) == TaskRunId(AsBytes(v'), t')
    ensures v == v' && t == t'
  {
    ParsedRunIdHasNoColon(v);
    ParsedRunIdHasNoColon(v');
    TaskRunIdInjective(AsBytes(v), t, AsBytes(v'), t');
    assert forall i :: 0 <= i < |v| ==> AsBytes(v)[i] == v[i] as int && AsBytes(v')[i] == v'[i] as int;
  }

  /** With a colon in a run id, which no parsed one has, two different tasks share an id. */
  lemma ColonCollides(r: seq<Byte>, t: seq<Byte>)
    ensures TaskRunId(r + [COLON], t) == TaskRunId(r, [COLON] + t)
    ensures r + [COLON] != r
  {
    assert Payload(r + [COLON], t) == Payload(r, [COLON] + t);
    assert |r + [COLON]| > |r|;
  }

  // ----- parsing

  /** The parser accepts a task-run id exactly when run id, task name and the colons fit the payload limit. */
  lemma ParseAcceptsTaskRunId(r: seq<Byte>, t: seq<Byte>)
    ensures Parse(TASK_RUN, TaskRunId(r, t)).Ok? <==> |r| + |t| + 2 <= 26
  {
    var p, id := Payload(r, t), TaskRunId(r, t);
    assert |p| == |r| + |t| + 2;
    assert id[|TASK_RUN|..] == Encoded(p) && TASK_RUN <= id;
    EncodeShape(p);
    DecodeEncode(p, |p|);
    DecodeLimit(Encoded(p), |p|, MAX_PAYLOAD);
  }

  /** The limit decides nothing but whether the payload fits. */
  lemma DecodeLimit(text: string, limit: nat, other: nat)
    requires Decoded(text, limit).Ok?
    ensures Decoded(text, other) == if |Decoded(text, limit).value| <= other then Decoded(text, limit) else Err(TooLong)
  {
  }

  /** What the parser accepts, in terms of the text alone: leftover bits are not looked at. */
  lemma ParseAcceptsIff(prefix: string, value: string)
    ensures Parse(prefix, value).Ok? <==>
      && prefix < value && |value| <= 96 && IsText(value[|prefix|..])
      && 5 * |value[|prefix|..]| / 8 <= 26
  {
    if prefix <= value {
      var body := value[|prefix|..];
      if IsText(body) { DecodingMeans(DigitsOf(body)); }
      assert |value| == |prefix| + |body|;
    }
  }

  /** It hands back what it accepts, and says why it refuses. */
  lemma ParseAnswers(prefix: string, value: string)
    ensures Parse(prefix, value).Ok? ==> Parse(prefix, value).value == value
    ensures Parse(prefix, value) == Err(WrongPrefix) <==> !(prefix <= value)
    ensures Parse(prefix, value) == Err(TooLong) <==>
      && prefix <= value
      && (|value| > 96 || (IsText(value[|prefix|..]) && 5 * |value[|prefix|..]| / 8 > 26))
    ensures Parse(prefix, value) == Err(Malformed) <==>
      prefix <= value && |value| <= 96 && (prefix == value || !IsText(value[|prefix|..]))
  {
    if prefix <= value {
      var body := value[|prefix|..];
      if IsText(body) { DecodingMeans(DigitsOf(body)); }
      assert value == prefix + body;
    }
  }

  /** So two different accepted ids can carry the same payload. */
  lemma AliasesAreAccepted()
    ensures Parse(TASK_RUN, "tr_00").Ok? && Parse(TASK_RUN, "tr_01").Ok?
    ensures Decoded("00", MAX_PAYLOAD) == Decoded("01", MAX_PAYLOAD)
  {
    ParseAcceptsIff(TASK_RUN, "tr_00");
    ParseAcceptsIff(TASK_RUN, "tr_01");
    assert "tr_00"[3..] == "00" && "tr_01"[3..] == "01";
    var a, b := DigitsOf("00"), DigitsOf("01");
    assert "00"[..1] == "0" && "01"[..1] == "0";
    assert a == [0, 0] && b == [0, 1];
    DecodingMeans(a);
    DecodingMeans(b);
    FirstByteSame(a, b);
    StreamInjective(FeedDigits(a).out, FeedDigits(b).out);
  }

  lemma FirstByteSame(a: seq<nat>, b: seq<nat>)
    requires a == [0, 0] && b == [0, 1]
    ensures DigitStream(a)[..8] == DigitStream(b)[..8]
  {
    assert a[..1] == [0] && b[..1] == [0];
    assert DigitStream(a) == DigitStream([0]) + BitsOf(0, 5) && DigitStream(b) == DigitStream([0]) + BitsOf(1, 5);
    assert BitsOf(0, 5) == BitsOf(0, 4) + [false] && BitsOf(1, 5) == BitsOf(0, 4) + [true];
  }
}
