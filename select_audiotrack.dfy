/** The labels and choice lists offered by the two audio-track prompts. */
module SelectAudiotrack {
  import opened Results
  import opened Decimal
  import opened Js
  import opened Audiotracks

  /** The label of a track: its index in brackets, then the title if truthy, then the language in parentheses if truthy. */
  function Label(t: Audiotrack): string {
    "[" + IntText(t.idx) + "]"
    + (if IsTruthyText(t.title) then " " + t.title.value else "")
    + (if IsTruthyText(t.language) then " (" + t.language.value + ")" else "")
  }

  /** `parts.join(sep)` */
  function JoinWith(parts: seq<string>, sep: string): string
    decreases |parts|
  {
    if parts == [] then ""
    else if |parts| == 1 then parts[0]
    else parts[0] + sep + JoinWith(parts[1..], sep)
  }

  /** buildName: collects the parts that apply and joins them with single spaces. */
  method BuildName(t: Audiotrack) returns (name: string)
    ensures name == Label(t)
  {
    var parts := ["[" + IntText(t.idx) + "]"];
    if IsTruthyText(t.title) {
      parts := parts + [t.title.value];
    }
    if IsTruthyText(t.language) {
      parts := parts + ["(" + t.language.value + ")"];
    }
    name := JoinWith(parts, " ");
    var index := "[" + IntText(t.idx) + "]";
    var titlePart := if IsTruthyText(t.title) then " " + t.title.value else "";
    var languagePart := if IsTruthyText(t.language) then " (" + t.language.value + ")" else "";
    assert Label(t) == index + titlePart + languagePart;
    if |parts| == 3 {
      assert parts[1..][1..] == [parts[2]];
      assert JoinWith(parts[1..], " ") == parts[1] + " " + parts[2];
      assert name == index + (" " + parts[1]) + (" " + parts[2]);
    } else if |parts| == 2 {
      assert parts[1..] == [parts[1]];
      assert JoinWith(parts[1..], " ") == parts[1];
      assert parts[0] == index;
      assert name == index + (" " + parts[1]);
    }
  }

  /**
   * The four shapes of a label: the bracketed index alone, followed by the title when
   * it is truthy, followed by the language in parentheses when it is truthy, the parts
   * separated by single spaces; a falsy title or language adds nothing.
   */
  lemma LabelShape(t: Audiotrack)
    ensures var index, l := "[" + IntText(t.idx) + "]", Label(t);
      && (!IsTruthyText(t.title) && !IsTruthyText(t.language) ==> l == index)
      && (IsTruthyText(t.title) && !IsTruthyText(t.language) ==> l == index + " " + t.title.value)
      && (!IsTruthyText(t.title) && IsTruthyText(t.language) ==> l == index + " (" + t.language.value + ")")
      && (IsTruthyText(t.title) && IsTruthyText(t.language) ==>
            l == index + " " + t.title.value + " (" + t.language.value + ")")
  {
    var index := "[" + IntText(t.idx) + "]";
    var l := Label(t);
    if !IsTruthyText(t.title) && !IsTruthyText(t.language) {
      assert l == index + "" + "";
    } else if IsTruthyText(t.title) && !IsTruthyText(t.language) {
      assert l == index + (" " + t.title.value) + "";
    } else if !IsTruthyText(t.title) {
      assert l == index + "" + (" (" + t.language.value + ")");
    } else {
      assert l == index + (" " + t.title.value) + (" (" + t.language.value + ")");
    }
  }

  /** One prompt choice: the track itself as the value, its label as the name. */
  datatype Choice = Choice(value: Audiotrack, name: string)

  /** The `choices` of selectMainAudiotrack and of selectSecondaryAudiotracks. */
  function Choices(tracks: seq<Audiotrack>): (cs: seq<Choice>)
    ensures |cs| == |tracks|
    ensures forall i :: 0 <= i < |tracks| ==> cs[i].value == tracks[i] && cs[i].name == Label(tracks[i])
    decreases |tracks|
  {
    if tracks == [] then [] else [Choice(tracks[0], Label(tracks[0]))] + Choices(tracks[1..])
  }

  function IndexOf(s: string, c: char): nat
    decreases |s|
  {
    if s == [] || s[0] == c then 0 else 1 + IndexOf(s[1..], c)
  }

  lemma {:induction false} IndexOfFirst(p: string, c: char, x: string)
    requires c !in p
    ensures IndexOf(p + [c] + x, c) == |p|
    decreases |p|
  {
    if p != [] {
      assert (p + [c] + x)[1..] == p[1..] + [c] + x;
      assert p[0] in p;
      IndexOfFirst(p[1..], c, x);
    }
  }

  lemma BracketedPrefix(a: string, x: string, b: string, y: string)
    requires ']' !in a && ']' !in b
    requires "[" + a + "]" + x == "[" + b + "]" + y
    ensures a == b
  {
    var l, r := "[" + a + "]" + x, "[" + b + "]" + y;
    IndexOfFirst("[" + a, ']', x);
    IndexOfFirst("[" + b, ']', y);
    assert l == ("[" + a) + [']'] + x && r == ("[" + b) + [']'] + y;
    assert |a| == |b|;
    assert a == l[1..1 + |a|] && b == r[1..1 + |b|];
  }

  /** The label is the bracketed index followed by the rest. */
  lemma LabelSplits(t: Audiotrack)
    ensures var index := "[" + IntText(t.idx) + "]";
      |index| <= |Label(t)| && Label(t) == index + Label(t)[|index|..]
  {
    var index := "[" + IntText(t.idx) + "]";
    var titlePart := if IsTruthyText(t.title) then " " + t.title.value else "";
    var languagePart := if IsTruthyText(t.language) then " (" + t.language.value + ")" else "";
    assert Label(t) == index + (titlePart + languagePart);
  }

  /** Tracks with different stream indices get different labels, so every choice is told apart. */
  lemma LabelIdentifiesIndex(t1: Audiotrack, t2: Audiotrack)
    requires Label(t1) == Label(t2)
    ensures t1.idx == t2.idx
  {
    var a, b := IntText(t1.idx), IntText(t2.idx);
    assert ']' !in a && ']' !in b;
    LabelSplits(t1);
    LabelSplits(t2);
    var l := Label(t1);
    BracketedPrefix(a, l[|a| + 2..], b, l[|b| + 2..]);
    IntTextInjective(t1.idx, t2.idx);
  }
}
