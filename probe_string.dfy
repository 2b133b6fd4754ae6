// The probe string of the stack-count collector: its split at ':' into
// fields, and the choice of kernel function, tracepoint, user-space function
// or USDT probe that the fields describe.
module ProbeString {
  /** std::string::find of one character: -1 stands for npos. */
  function Find(s: string, c: char): (r: int)
    ensures -1 <= r < |s|
    ensures r == -1 <==> c !in s
    ensures r >= 0 ==> s[r] == c && c !in s[..r]
  {
    if |s| == 0 then -1
    else if s[0] == c then 0
    else
      var r := Find(s[1..], c);
      assert r >= 0 ==> s[..r + 1] == [s[0]] + s[1..][..r];
      if r == -1 then -1 else r + 1
  }

  /**
   * `out` followed by the fields of a string that ends in the separator,
   * one per separator: what the loop of splitString would yet append.
   */
  function ChunksFrom(out: seq<string>, t: string, c: char): seq<string>
    decreases |t|
  {
    var pos := Find(t, c);
    if pos == -1 then out else ChunksFrom(out + [t[..pos]], t[pos + 1..], c)
  }

  /** The fields of a non-empty string between its separators. */
  function Fields(s: string, c: char): seq<string>
    decreases |s|
  {
    var pos := Find(s, c);
    if pos == -1 then [s] else [s[..pos]] + Fields(s[pos + 1..], c)
  }

  /**
   * What splitString appends for `symbol`: nothing for the empty string,
   * otherwise one field more than there are separators, none holding the
   * separator, that join back to the string.
   */
  function Split(symbol: string, c: char): (r: seq<string>)
    ensures symbol == "" ==> r == []
    ensures symbol != "" ==> |r| == Occurrences(symbol, c) + 1
    ensures forall j :: 0 <= j < |r| ==> c !in r[j]
    ensures Join(r, c) == symbol
  {
    FieldsCount(symbol, c);
    FieldsHaveNoSeparator(symbol, c);
    JoinFields(symbol, c);
    if symbol == "" then [] else Fields(symbol, c)
  }

  /** The fields separated by `c` again. */
  function Join(ts: seq<string>, c: char): string
    decreases |ts|
  {
    if |ts| == 0 then "" else if |ts| == 1 then ts[0] else ts[0] + [c] + Join(ts[1..], c)
  }

  /** The number of occurrences of `c` in `s`. */
  function Occurrences(s: string, c: char): nat
    decreases |s|
  {
    if |s| == 0 then 0 else (if s[0] == c then 1 else 0) + Occurrences(s[1..], c)
  }

  /** Appending the separator turns the fields into the chunks. */
  lemma {:induction false} ChunksOfTerminated(out: seq<string>, s: string, c: char)
    ensures ChunksFrom(out, s + [c], c) == out + Fields(s, c)
    decreases |s|
  {
    var pos := Find(s, c);
    var t := s + [c];
    if pos == -1 {
      assert t[..|s|] == s;
      assert Find(t, c) == |s| by {
        assert t[|s|] == c;
        FindFirst(t, c, |s|);
      }
      assert t[|s| + 1..] == [];
      assert Find([], c) == -1;
    } else {
      assert t[pos] == c && c !in t[..pos] by { assert t[..pos] == s[..pos]; }
      FindFirst(t, c, pos);
      assert t[..pos] == s[..pos];
      assert t[pos + 1..] == s[pos + 1..] + [c];
      var head := s[..pos];
      var rest := Fields(s[pos + 1..], c);
      assert Fields(s, c) == [head] + rest;
      assert ChunksFrom(out, t, c) == ChunksFrom(out + [head], s[pos + 1..] + [c], c);
      ChunksOfTerminated(out + [head], s[pos + 1..], c);
      AppendAssoc(out, [head], rest);
    }
  }

  lemma AppendAssoc<T>(a: seq<T>, b: seq<T>, d: seq<T>)
    ensures (a + b) + d == a + (b + d)
  {
  }

  /** Find returns the first position holding `c`. */
  lemma FindFirst(s: string, c: char, i: nat)
    requires i < |s| && s[i] == c && c !in s[..i]
    ensures Find(s, c) == i
  {
  }

  /** A field holds no separator. */
  lemma {:induction false} FieldsHaveNoSeparator(s: string, c: char)
    ensures forall j :: 0 <= j < |Fields(s, c)| ==> c !in Fields(s, c)[j]
    decreases |s|
  {
    var pos := Find(s, c);
    if pos != -1 {
      FieldsHaveNoSeparator(s[pos + 1..], c);
    }
  }

  /** There is one field more than there are separators, and none is dropped. */
  lemma {:induction false} FieldsCount(s: string, c: char)
    ensures |Fields(s, c)| == Occurrences(s, c) + 1
    decreases |s|
  {
    var pos := Find(s, c);
    if pos == -1 {
      NoOccurrences(s, c);
    } else {
      assert s == s[..pos] + [c] + s[pos + 1..];
      OccurrencesAppend(s[..pos] + [c], s[pos + 1..], c);
      OccurrencesAppend(s[..pos], [c], c);
      NoOccurrences(s[..pos], c);
      FieldsCount(s[pos + 1..], c);
    }
  }

  lemma {:induction false} NoOccurrences(s: string, c: char)
    requires c !in s
    ensures Occurrences(s, c) == 0
    decreases |s|
  {
    if |s| > 0 {
      NoOccurrences(s[1..], c);
    }
  }

  lemma {:induction false} OccurrencesAppend(a: string, b: string, c: char)
    ensures Occurrences(a + b, c) == Occurrences(a, c) + Occurrences(b, c)
    decreases |a|
  {
    if |a| > 0 {
      assert (a + b)[1..] == a[1..] + b;
      OccurrencesAppend(a[1..], b, c);
    } else {
      assert a + b == b;
    }
  }

  /** Joining the fields with the separator gives back the string. */
  lemma {:induction false} JoinFields(s: string, c: char)
    ensures Join(Fields(s, c), c) == s
    decreases |s|
  {
    var pos := Find(s, c);
    if pos != -1 {
      var rest := Fields(s[pos + 1..], c);
      assert |rest| >= 1 by { FieldsCount(s[pos + 1..], c); }
      JoinFields(s[pos + 1..], c);
      assert ([s[..pos]] + rest)[1..] == rest;
      assert s == s[..pos] + [c] + s[pos + 1..];
    }
  }

  /**
   * splitString: `res` with the fields of `symbol` appended; nothing is
   * appended for the empty string.  The loop consumes the string with a
   * separator added at its end, one field per separator found.
   */
  method SplitString(symbol: string, split: char, res: seq<string>) returns (out: seq<string>)
    ensures out == res + Split(symbol, split)
  {
    out := res;
    if symbol == "" {
      return;
    }
    var strs := symbol + [split];
    var pos := Find(strs, split);
    ChunksOfTerminated(res, symbol, split);
    while pos != -1
      invariant pos == Find(strs, split)
      invariant ChunksFrom(out, strs, split) == res + Fields(symbol, split)
      decreases |strs|
    {
      var temp := strs[..pos];
      out := out + [temp];
      strs := strs[pos + 1..];
      pos := Find(strs, split);
    }
    assert Split(symbol, split) == Fields(symbol, split);
  }

  /** What attach hooks the stack-count program to. */
  datatype ProbeTarget =
    | Kprobe(func: string)
    | Tracepoint(category: string, name: string)
    | Uprobe(binary: string, func: string)
    | Usdt
    | Unsupported

  /** The string before and after the first occurrence of ':'. */
  function AtFirstColon(f: string): (r: (string, string))
    requires ':' in f
    ensures f == r.0 + [':'] + r.1 && ':' !in r.0
  {
    var i := Find(f, ':');
    assert f == f[..i] + [':'] + f[i + 1..];
    (f[..i], f[i + 1..])
  }

  /** The p/t/u grammar of the probe string, checked on its fields in the order attach checks it. */
  function Classify(probe: string, ts: seq<string>): (t: ProbeTarget)
    requires |ts| == 2 ==> ':' in probe
    ensures t.Kprobe? <==> |ts| == 1 || (|ts| == 3 && ts[0] == "p" && ts[1] == "")
    ensures t.Kprobe? ==> t.func == if |ts| == 3 then ts[2] else probe
    ensures t.Tracepoint? <==> |ts| == 3 && ts[0] == "t"
    ensures t.Tracepoint? ==> t == Tracepoint(ts[1], ts[2])
    ensures t.Uprobe? <==> |ts| == 2 || (|ts| == 3 && ts[0] == "p" && ts[1] != "")
    ensures t.Usdt? <==> |ts| == 3 && ts[0] == "u"
    ensures t.Unsupported? <==> |ts| == 0 || |ts| > 3 || (|ts| == 3 && ts[0] != "p" && ts[0] != "t" && ts[0] != "u")
  {
    if |ts| == 1 || (|ts| == 3 && ts[0] == "p" && ts[1] == "") then
      Kprobe(if |ts| == 3 then ts[2] else probe)
    else if |ts| == 3 && ts[0] == "t" then
      Tracepoint(ts[1], ts[2])
    else if |ts| == 2 || (|ts| == 3 && ts[0] == "p" && ts[1] != "") then
      var f := if |ts| == 3 then ts[1] + ":" + ts[2] else probe;
      var r := AtFirstColon(f);
      Uprobe(r.0, r.1)
    else if |ts| == 3 && ts[0] == "u" then
      Usdt
    else
      Unsupported
  }

  /**
   * The target attach picks for a probe string: a kernel function for a
   * string without ':', nothing for the empty string, and a tracepoint only
   * for "t:category:name".
   */
  function TargetOf(probe: string): (t: ProbeTarget)
    ensures probe == "" ==> t == Unsupported
    ensures probe != "" && ':' !in probe ==> t == Kprobe(probe)
    ensures t.Tracepoint? ==> probe == "t:" + t.category + ":" + t.name && ':' !in t.category && ':' !in t.name
    ensures t.Uprobe? ==> ':' !in t.binary
  {
    var ts := Split(probe, ':');
    SplitFieldCount(probe);
    ThreeFieldsJoin(ts);
    Classify(probe, ts)
  }

  /** Without ':' a probe string is one field; with two fields it has a ':'. */
  lemma SplitFieldCount(probe: string)
    ensures ':' !in probe && probe != "" ==> Split(probe, ':') == [probe]
    ensures |Split(probe, ':')| == 2 ==> ':' in probe
  {
    var ts := Split(probe, ':');
    if ':' !in probe {
      NoOccurrences(probe, ':');
      if probe != "" {
        assert |ts| == 1 && Join(ts, ':') == ts[0];
      }
    }
  }

  /** Three fields join as the first, ':', the second, ':', the third. */
  lemma ThreeFieldsJoin(ts: seq<string>)
    ensures |ts| == 3 ==> Join(ts, ':') == ts[0] + ":" + ts[1] + ":" + ts[2]
  {
    if |ts| == 3 {
      assert Join(ts[1..][1..], ':') == ts[2] by {
        assert ts[1..][1..] == [ts[2]];
      }
      assert Join(ts[1..], ':') == ts[1] + [':'] + ts[2];
      assert Join(ts, ':') == ts[0] + [':'] + (ts[1] + [':'] + ts[2]);
    }
  }

  /** A user-space probe names the library and the function exactly as the fields do. */
  lemma UprobeNamesFields(probe: string)
    requires TargetOf(probe).Uprobe?
    ensures var ts := Split(probe, ':');
      && (|ts| == 2 ==> TargetOf(probe) == Uprobe(ts[0], ts[1]))
      && (|ts| == 3 ==> TargetOf(probe) == Uprobe(ts[1], ts[2]) && ts[0] == "p" && ts[1] != "")
  {
    var ts := Split(probe, ':');
    var f := if |ts| == 3 then ts[1] + ":" + ts[2] else probe;
    if |ts| == 2 {
      assert probe == ts[0] + [':'] + ts[1] by {
        assert Join(ts, ':') == probe;
        assert ts[1..] == [ts[1]];
        assert Join(ts, ':') == ts[0] + [':'] + Join(ts[1..], ':');
      }
      PrefixSplit(ts[0], ts[1], f);
    } else {
      PrefixSplit(ts[1], ts[2], f);
    }
  }

  /** Splitting `a:b` at its first ':' gives back `a` and `b` when `a` has no ':'. */
  lemma PrefixSplit(a: string, b: string, f: string)
    requires f == a + [':'] + b && ':' !in a
    ensures AtFirstColon(f) == (a, b)
  {
    assert f[|a|] == ':' && f[..|a|] == a;
    FindFirst(f, ':', |a|);
    assert f[|a| + 1..] == b;
  }

  /** A probe string with nothing after an empty library field is a kernel probe, never a user one. */
  lemma EmptyLibraryIsKprobe(f: string)
    requires ':' !in f
    ensures TargetOf("p::" + f) == Kprobe(f)
  {
    var s := "p::" + f;
    assert s[1] == ':' && s[..1] == "p";
    FindFirst(s, ':', 1);
    var rest := s[2..];
    assert rest == ":" + f;
    FindFirst(rest, ':', 0);
    assert rest[..0] == "" && rest[1..] == f;
    assert Fields(f, ':') == [f];
    assert Fields(rest, ':') == [""] + [f];
    assert Fields(s, ':') == ["p"] + Fields(rest, ':');
    assert Split(s, ':') == ["p", "", f];
  }
}
