/** The `--vlc-ports` option parser: a comma-separated list of ports. */
module ParseOptions {
  import opened Results
  import opened Decimal

  const MinPort: int := 1024
  const MaxPort: int := 65535

  predicate InPortRange(p: int) {
    MinPort <= p <= MaxPort
  }

  /** The two InvalidArgumentError cases. */
  datatype ParseError = NotANumberList | PortOutOfRange

  /** The message each InvalidArgumentError carries. */
  function Message(e: ParseError): string {
    match e
    case NotANumberList => "Not a comma-separated list of numbers."
    case PortOutOfRange => "Port range is [1024-65535]"
  }

  /** The two errors are told apart by their messages. */
  lemma MessagesTellErrorsApart(e1: ParseError, e2: ParseError)
    ensures Message(e1) == Message(e2) <==> e1 == e2
  {
    assert Message(NotANumberList)[0] != Message(PortOutOfRange)[0];
  }

  /** `s.split(",")`: the text between commas, always at least one (possibly empty) field. */
  function Split(s: string): (fields: seq<string>)
    ensures |fields| >= 1
    ensures forall i :: 0 <= i < |fields| ==> ',' !in fields[i]
    decreases |s|
  {
    if s == [] then [""]
    else
      var rest := Split(s[1..]);
      if s[0] == ',' then [""] + rest else [[s[0]] + rest[0]] + rest[1..]
  }

  /** `fields.join(",")` */
  function Join(fields: seq<string>): string
    requires |fields| >= 1
    decreases |fields|
  {
    if |fields| == 1 then fields[0] else fields[0] + "," + Join(fields[1..])
  }

  lemma {:induction false} SplitWithPrefix(a: string, s: string)
    requires ',' !in a
    ensures Split(a + s) == [a + Split(s)[0]] + Split(s)[1..]
    decreases |a|
  {
    if a == [] {
      assert a + s == s && a + Split(s)[0] == Split(s)[0];
      assert Split(s) == [Split(s)[0]] + Split(s)[1..];
    } else {
      var t := a + s;
      assert t[0] == a[0] && a[0] in a;
      assert t[1..] == a[1..] + s;
      SplitWithPrefix(a[1..], s);
      var rest := Split(t[1..]);
      assert rest[0] == a[1..] + Split(s)[0];
      assert rest[1..] == Split(s)[1..];
      assert Split(t) == [[t[0]] + rest[0]] + rest[1..];
      assert [a[0]] + (a[1..] + Split(s)[0]) == a + Split(s)[0];
    }
  }

  /** Splitting the joined fields gives the fields back when none contains a comma. */
  lemma {:induction false} SplitJoin(fields: seq<string>)
    requires |fields| >= 1
    requires forall i :: 0 <= i < |fields| ==> ',' !in fields[i]
    ensures Split(Join(fields)) == fields
    decreases |fields|
  {
    if |fields| == 1 {
      SplitWithPrefix(fields[0], "");
      assert fields[0] + "" == fields[0];
    } else {
      var rest := Join(fields[1..]);
      SplitJoin(fields[1..]);
      assert Join(fields) == fields[0] + ("," + rest);
      SplitWithPrefix(fields[0], "," + rest);
      assert ("," + rest)[1..] == rest;
      assert Split("," + rest) == [""] + fields[1..];
      assert Split(Join(fields)) == [fields[0] + ""] + fields[1..];
      assert fields[0] + "" == fields[0];
      assert fields == [fields[0]] + fields[1..];
    }
  }

  /** Joining the fields of a split gives the string back. */
  lemma {:induction false} JoinSplit(s: string)
    ensures Join(Split(s)) == s
    decreases |s|
  {
    if s != [] {
      var rest := Split(s[1..]);
      JoinSplit(s[1..]);
      assert s == [s[0]] + s[1..];
      if s[0] == ',' {
        assert Split(s) == [""] + rest;
        assert Join(Split(s)) == "" + "," + Join(rest);
      } else if |rest| == 1 {
        assert Split(s) == [[s[0]] + rest[0]];
      } else {
        var f := Split(s);
        assert f == [[s[0]] + rest[0]] + rest[1..];
        assert f[1..] == rest[1..];
        assert Join(rest) == rest[0] + "," + Join(rest[1..]);
        assert Join(f) == ([s[0]] + rest[0]) + "," + Join(rest[1..]);
      }
    }
  }

  // The pattern /^\d+(?:,\d+)*$/ recognised by a three-state scanner.

  datatype Scan = ExpectDigit | InNumber | Rejected

  function Step(st: Scan, c: char): Scan {
    if st == Rejected then Rejected
    else if IsDigit(c) then InNumber
    else if c == ',' && st == InNumber then ExpectDigit
    else Rejected
  }

  function Run(st: Scan, s: string): Scan
    decreases |s|
  {
    if s == [] then st else Run(Step(st, s[0]), s[1..])
  }

  /** `/^\d+(?:,\d+)*$/.test(s)` */
  predicate MatchesPattern(s: string) {
    Run(ExpectDigit, s) == InNumber
  }

  predicate AllNumeric(fields: seq<string>) {
    forall i :: 0 <= i < |fields| ==> IsDigits(fields[i])
  }

  lemma {:induction false} RunRejected(s: string)
    ensures Run(Rejected, s) == Rejected
    decreases |s|
  {
    if s != [] {
      RunRejected(s[1..]);
    }
  }

  lemma {:induction false} RunAppend(st: Scan, a: string, b: string)
    ensures Run(st, a + b) == Run(Run(st, a), b)
    decreases |a|
  {
    if a == [] {
      assert a + b == b;
    } else {
      assert (a + b)[0] == a[0];
      assert (a + b)[1..] == a[1..] + b;
      RunAppend(Step(st, a[0]), a[1..], b);
    }
  }

  lemma AllDigitsCons(c: char, t: string)
    requires IsDigit(c)
    ensures AllDigits([c] + t) <==> AllDigits(t)
  {
    if AllDigits(t) {
      forall i | 0 <= i < |[c] + t| ensures IsDigit(([c] + t)[i]) {
        if i > 0 { assert ([c] + t)[i] == t[i - 1]; }
      }
    }
    if AllDigits([c] + t) {
      forall i | 0 <= i < |t| ensures IsDigit(t[i]) {
        assert t[i] == ([c] + t)[i + 1];
      }
    }
  }

  lemma {:induction false} ScannerReadsFields(s: string)
    ensures Run(ExpectDigit, s) == InNumber <==> IsDigits(Split(s)[0]) && AllNumeric(Split(s)[1..])
    ensures Run(InNumber, s) == InNumber <==> AllDigits(Split(s)[0]) && AllNumeric(Split(s)[1..])
    decreases |s|
  {
    if s != [] {
      ScannerReadsFields(s[1..]);
      var rest := Split(s[1..]);
      if s[0] == ',' {
        RunRejected(s[1..]);
        assert Split(s) == [""] + rest;
        assert Split(s)[1..] == rest;
        assert AllNumeric(rest) <==> IsDigits(rest[0]) && AllNumeric(rest[1..]);
      } else if IsDigit(s[0]) {
        assert Split(s)[0] == [s[0]] + rest[0];
        assert Split(s)[1..] == rest[1..];
        AllDigitsCons(s[0], rest[0]);
      } else {
        RunRejected(s[1..]);
        assert Split(s)[0][0] == s[0];
      }
    }
  }

  /** The pattern accepts exactly the strings whose comma-separated fields are all non-empty runs of digits. */
  lemma PatternIffNumericFields(s: string)
    ensures MatchesPattern(s) <==> AllNumeric(Split(s))
  {
    ScannerReadsFields(s);
    var f := Split(s);
    assert AllNumeric(f) <==> IsDigits(f[0]) && AllNumeric(f[1..]);
  }

  /** The `map`: every field read with parseInt; the first one out of range throws. */
  function ToPorts(fields: seq<string>): (r: Result<seq<int>, ParseError>)
    requires AllNumeric(fields)
    ensures r.Success? ==> |r.value| == |fields|
    ensures r.Success? ==> forall i :: 0 <= i < |fields| ==> r.value[i] == Value(fields[i]) && InPortRange(r.value[i])
    ensures r.Failure? <==> exists i :: 0 <= i < |fields| && !InPortRange(Value(fields[i]))
    ensures r.Failure? ==> r.error == PortOutOfRange
    decreases |fields|
  {
    if fields == [] then Success([])
    else
      var port := Value(fields[0]);
      if port < MinPort || port > MaxPort then Failure(PortOutOfRange)
      else
        match ToPorts(fields[1..])
        case Failure(e) =>
          assert exists i :: 1 <= i < |fields| && !InPortRange(Value(fields[i])) by {
            var j :| 0 <= j < |fields[1..]| && !InPortRange(Value(fields[1..][j]));
            assert fields[1..][j] == fields[j + 1];
          }
          Failure(e)
        case Success(ports) => Success([port] + ports)
  }

  /** parsePortList */
  function ParsePortList(s: string): (r: Result<seq<int>, ParseError>)
    ensures r == Failure(NotANumberList) <==> !MatchesPattern(s)
    ensures r == Failure(PortOutOfRange) <==>
      MatchesPattern(s) && exists i :: 0 <= i < |Split(s)| && AllDigits(Split(s)[i]) && !InPortRange(Value(Split(s)[i]))
    ensures r.Success? ==>
      |r.value| == |Split(s)| &&
      forall i :: 0 <= i < |r.value| ==> IsDigits(Split(s)[i]) && r.value[i] == Value(Split(s)[i]) && InPortRange(r.value[i])
  {
    if !MatchesPattern(s) then Failure(NotANumberList)
    else
      PatternIffNumericFields(s);
      ToPorts(Split(s))
  }

  /** The empty string, a leading or trailing comma, and any character other than a digit or a comma are rejected. */
  lemma RejectsMalformed(s: string, k: nat)
    requires s == "" || s[0] == ',' || s[|s| - 1] == ',' || (k < |s| && !IsDigit(s[k]) && s[k] != ',')
    ensures ParsePortList(s) == Failure(NotANumberList)
  {
    if s == "" {
    } else if s[0] == ',' {
      RunRejected(s[1..]);
    } else if s[|s| - 1] == ',' {
      var init := s[..|s| - 1];
      assert s == init + [','];
      RunAppend(ExpectDigit, init, [',']);
      RunRejected([]);
    } else {
      assert s == s[..k] + s[k..];
      RunAppend(ExpectDigit, s[..k], s[k..]);
      RunRejected(s[k + 1..]);
    }
  }

  /** A list of ports written as their canonical decimal texts joined by commas. */
  function PortListText(ports: seq<int>): string
    requires |ports| >= 1
    requires forall i :: 0 <= i < |ports| ==> 0 <= ports[i]
  {
    Join(seq(|ports|, i requires 0 <= i < |ports| => NatText(ports[i])))
  }

  /** Any non-empty list of ports in range, written out with commas, parses back to itself. */
  lemma PortListRoundTrip(ports: seq<int>)
    requires |ports| >= 1
    requires forall i :: 0 <= i < |ports| ==> MinPort <= ports[i] <= MaxPort
    ensures ParsePortList(PortListText(ports)) == Success(ports)
  {
    var texts := seq(|ports|, i requires 0 <= i < |ports| => NatText(ports[i]));
    forall i | 0 <= i < |texts|
      ensures ',' !in texts[i] && Value(texts[i]) == ports[i]
    {
      ValueOfNatText(ports[i]);
      assert IsDigits(texts[i]);
    }
    SplitJoin(texts);
    PatternIffNumericFields(PortListText(ports));
    var r := ParsePortList(PortListText(ports));
    assert r.Success?;
    assert r.value == ports;
  }

  /** Leading zeros in a field do not change the port it denotes. */
  lemma LeadingZerosGiveSamePort(z: string, digits: string)
    requires forall i :: 0 <= i < |z| ==> z[i] == '0'
    requires IsDigits(digits) && InPortRange(Value(digits))
    ensures ParsePortList(z + digits) == Success([Value(digits)])
  {
    LeadingZerosIgnored(z, digits);
    var s := z + digits;
    assert ',' !in s;
    SplitWithPrefix(s, "");
    assert s + "" == s;
    assert Split(s) == [s];
    PatternIffNumericFields(s);
    assert AllNumeric(Split(s));
    var r := ToPorts([s]);
    assert InPortRange(Value([s][0]));
    assert r.Success?;
    assert r.value == [Value(s)];
  }
}
