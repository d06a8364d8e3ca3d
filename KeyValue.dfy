/**
 * `parseKeyValueList` (src/util.ts): a text of `key=value` lines becomes a
 * dictionary. The pipeline is `split('\n')`, then `split(/=(.*)/)` on each
 * line, a filter on the key, a default for the value, and
 * `Object.fromEntries`. Each stage is a function below, and
 * `ParseKeyValueList` composes them.
 */
module KeyValue {

  // ---------------------------------------------------------------------------
  // Lines: `data.split('\n')`
  // ---------------------------------------------------------------------------

  /** `s.split('\n')`: the pieces between newlines; there is always at least one. */
  function SplitLines(s: string): (lines: seq<string>)
    ensures |lines| >= 1
  {
    if s == [] then [""]
    else
      var rest := SplitLines(s[1..]);
      if s[0] == '\n' then [""] + rest
      else [[s[0]] + rest[0]] + rest[1..]
  }

  /** `lines.join('\n')`. */
  function JoinLines(lines: seq<string>): string
    requires |lines| >= 1
  {
    if |lines| == 1 then lines[0] else lines[0] + "\n" + JoinLines(lines[1..])
  }

  /** No piece of a split contains the separator. */
  lemma {:induction false} SplitLinesHaveNoNewline(s: string)
    ensures forall line :: line in SplitLines(s) ==> '\n' !in line
  {
    if s != [] {
      SplitLinesHaveNoNewline(s[1..]);
      var rest := SplitLines(s[1..]);
      if s[0] != '\n' {
        assert rest[0] in rest;
        forall line | line in SplitLines(s)
          ensures '\n' !in line
        {
          if line != [s[0]] + rest[0] {
            assert line in rest[1..];
          }
        }
      }
    }
  }

  /** Joining the pieces gives back the text. */
  lemma {:induction false} JoinSplitLines(s: string)
    ensures JoinLines(SplitLines(s)) == s
  {
    if s != [] {
      JoinSplitLines(s[1..]);
      var rest := SplitLines(s[1..]);
      if s[0] == '\n' {
        assert SplitLines(s)[1..] == rest;
      } else if |rest| > 1 {
        assert SplitLines(s)[1..] == rest[1..];
        assert JoinLines(rest) == rest[0] + "\n" + JoinLines(rest[1..]);
        assert s == [s[0]] + s[1..];
      } else {
        assert s == [s[0]] + s[1..];
      }
    }
  }

  /** A text without newlines is one piece. */
  lemma {:induction false} SplitLinesOfOneLine(s: string)
    requires '\n' !in s
    ensures SplitLines(s) == [s]
  {
    if s != [] {
      assert '\n' !in s[1..];
      SplitLinesOfOneLine(s[1..]);
      assert [s[0]] + s[1..] == s;
    }
  }

  /** Splitting `a + "\n" + b` gives the pieces of `a` followed by those of `b`. */
  lemma {:induction false} SplitLinesConcat(a: string, b: string)
    ensures SplitLines(a + "\n" + b) == SplitLines(a) + SplitLines(b)
  {
    var s := a + "\n" + b;
    if a == [] {
      assert s[1..] == b;
    } else {
      assert s[1..] == a[1..] + "\n" + b;
      SplitLinesConcat(a[1..], b);
    }
  }

  /** Splitting the join of newline-free pieces gives back the pieces. */
  lemma {:induction false} SplitJoinLines(lines: seq<string>)
    requires |lines| >= 1
    requires forall line :: line in lines ==> '\n' !in line
    ensures SplitLines(JoinLines(lines)) == lines
  {
    SplitLinesOfOneLine(lines[0]);
    if |lines| > 1 {
      SplitJoinLines(lines[1..]);
      SplitLinesConcat(lines[0], JoinLines(lines[1..]));
      assert lines == [lines[0]] + lines[1..];
    }
  }

  // ---------------------------------------------------------------------------
  // One line: `item.split(/=(.*)/)` and `value ?? ''`
  // ---------------------------------------------------------------------------

  /** The characters at which JavaScript's `.` stops matching. */
  predicate IsLineTerminator(c: char) {
    c == '\n' || c == '\r' || c == '\U{2028}' || c == '\U{2029}'
  }

  /** The position of the first `c` in `s`, or `|s|` when there is none. */
  function IndexOf(s: string, c: char): (i: nat)
    ensures i <= |s|
    ensures c !in s[..i]
    ensures i < |s| ==> s[i] == c
  {
    if s == [] then 0
    else if s[0] == c then 0
    else
      var i := IndexOf(s[1..], c);
      assert s[..i + 1] == [s[0]] + s[1..][..i];
      i + 1
  }

  /** What the capture `(.*)` takes from `s`: the longest prefix free of line terminators. */
  function MatchRest(s: string): (r: string)
    ensures |r| <= |s| && r == s[..|r|]
    ensures forall k :: 0 <= k < |r| ==> !IsLineTerminator(r[k])
    ensures |r| < |s| ==> IsLineTerminator(s[|r|])
  {
    if s == [] || IsLineTerminator(s[0]) then ""
    else [s[0]] + MatchRest(s[1..])
  }

  /** One `[key, value]` pair handed to `Object.fromEntries`. */
  datatype Entry = Entry(key: string, value: string)

  /**
   * `const [key, value] = line.split(/=(.*)/)` with `value ?? ''`: the key is
   * the text before the first `=` (the whole line when there is none); the
   * value is what the capture takes after that `=`, and `''` without one.
   */
  function SplitEntry(line: string): (e: Entry)
    ensures e.key <= line && '=' !in e.key
    ensures |e.key| < |line| ==> line[|e.key|] == '=' && e.value <= line[|e.key| + 1..]
    ensures |e.key| == |line| ==> e.value == ""
    ensures forall k :: 0 <= k < |e.value| ==> !IsLineTerminator(e.value[k])
  {
    var i := IndexOf(line, '=');
    if i < |line| then Entry(line[..i], MatchRest(line[i + 1..]))
    else Entry(line, "")
  }

  /** The line is split at its first `=`; later `=` characters belong to the value. */
  lemma SplitAtFirstEquals(key: string, value: string)
    requires '=' !in key
    ensures SplitEntry(key + "=" + value) == Entry(key, MatchRest(value))
  {
    var line := key + "=" + value;
    var i := IndexOf(line, '=');
    assert line[..|key|] == key;
    assert line[|key|] == '=';
    assert line[|key| + 1..] == value;
  }

  /** A line without `=` is a key with the empty value. */
  lemma SplitWithoutEquals(line: string)
    requires '=' !in line
    ensures SplitEntry(line) == Entry(line, "")
  {
    assert line[..|line|] == line;
  }

  /** The value stops at the first line terminator; a value free of them is kept whole. */
  lemma {:induction false} MatchRestOfCleanValue(value: string)
    requires forall k :: 0 <= k < |value| ==> !IsLineTerminator(value[k])
    ensures MatchRest(value) == value
  {
    if value != [] {
      assert forall k :: 0 <= k < |value[1..]| ==> value[1..][k] == value[k + 1];
      MatchRestOfCleanValue(value[1..]);
      assert [value[0]] + value[1..] == value;
    }
  }

  // ---------------------------------------------------------------------------
  // `.filter(([key]) => key)` and `Object.fromEntries`
  // ---------------------------------------------------------------------------

  /** The entries of the lines, in order, with the empty-key ones dropped. */
  function Entries(lines: seq<string>): (es: seq<Entry>)
    ensures |es| <= |lines|
  {
    if lines == [] then []
    else
      var e := SplitEntry(lines[0]);
      (if e.key != "" then [e] else []) + Entries(lines[1..])
  }

  /** What every kept entry looks like: a non-empty key without `=`, a value without line terminators. */
  predicate CleanEntry(e: Entry) {
    && e.key != ""
    && '=' !in e.key
    && forall k :: 0 <= k < |e.value| ==> !IsLineTerminator(e.value[k])
  }

  /** Every kept entry is clean, and its key comes from one of the lines. */
  lemma {:induction false} EntriesAreClean(lines: seq<string>)
    ensures forall e :: e in Entries(lines) ==> CleanEntry(e)
    ensures forall e :: e in Entries(lines) ==> exists line :: line in lines && e.key <= line
  {
    if lines != [] {
      EntriesAreClean(lines[1..]);
      var e := SplitEntry(lines[0]);
      var i := IndexOf(lines[0], '=');
      assert e.key == lines[0][..i];
      forall x | x in Entries(lines)
        ensures CleanEntry(x)
        ensures exists line :: line in lines && x.key <= line
      {
        if x in Entries(lines[1..]) {
          var line :| line in lines[1..] && x.key <= line;
          assert line in lines;
        } else {
          assert x == e;
          assert lines[0] in lines;
        }
      }
    }
  }

  /** An entry carries key `k` exactly when some line splits to the non-empty key `k`. */
  lemma {:induction false} EntriesKeys(lines: seq<string>, k: string)
    ensures (exists e :: e in Entries(lines) && e.key == k)
        <==> k != "" && exists line :: line in lines && SplitEntry(line).key == k
  {
    if lines != [] {
      var rest := lines[1..];
      EntriesKeys(rest, k);
      var head := SplitEntry(lines[0]);
      assert Entries(lines) == (if head.key != "" then [head] else []) + Entries(rest);
      if exists line :: line in lines && SplitEntry(line).key == k {
        var line :| line in lines && SplitEntry(line).key == k;
        if line != lines[0] {
          assert line in rest;
        }
      }
      if exists line :: line in rest && SplitEntry(line).key == k {
        var line :| line in rest && SplitEntry(line).key == k;
        assert line in lines;
      }
    }
  }

  /** The entries of two runs of lines are those of the first followed by those of the second. */
  lemma {:induction false} EntriesConcat(a: seq<string>, b: seq<string>)
    ensures Entries(a + b) == Entries(a) + Entries(b)
  {
    if a != [] {
      assert (a + b)[1..] == a[1..] + b;
      EntriesConcat(a[1..], b);
      var head := if SplitEntry(a[0]).key != "" then [SplitEntry(a[0])] else [];
      assert Entries(a + b) == head + (Entries(a[1..]) + Entries(b));
      assert Entries(a) == head + Entries(a[1..]);
    } else {
      assert a + b == b;
    }
  }

  /**
   * `Object.fromEntries(es)`: entries are stored in order, so for a repeated
   * key the last entry wins.
   */
  function FromEntries(es: seq<Entry>): map<string, string> {
    if es == [] then map[]
    else FromEntries(es[..|es| - 1])[es[|es| - 1].key := es[|es| - 1].value]
  }

  /** A key is in the dictionary exactly when some entry carries it. */
  lemma {:induction false} FromEntriesKeys(es: seq<Entry>)
    ensures forall k :: k in FromEntries(es) <==> exists i :: 0 <= i < |es| && es[i].key == k
  {
    if es != [] {
      var init := es[..|es| - 1];
      FromEntriesKeys(init);
      forall k | k in FromEntries(es)
        ensures exists i :: 0 <= i < |es| && es[i].key == k
      {
        if k != es[|es| - 1].key {
          assert k in FromEntries(init);
          var i :| 0 <= i < |init| && init[i].key == k;
          assert es[i] == init[i];
        }
      }
      forall k | exists i :: 0 <= i < |es| && es[i].key == k
        ensures k in FromEntries(es)
      {
        var i :| 0 <= i < |es| && es[i].key == k;
        if i < |es| - 1 {
          assert init[i] == es[i];
        }
      }
    }
  }

  /** The value stored for a key is the one of the last entry carrying it. */
  lemma {:induction false} FromEntriesLastWins(es: seq<Entry>, k: string)
    requires k in FromEntries(es)
    ensures exists i :: 0 <= i < |es| && es[i] == Entry(k, FromEntries(es)[k]) && forall j :: i < j < |es| ==> es[j].key != k
  {
    var init := es[..|es| - 1];
    var last := es[|es| - 1];
    if last.key == k {
      assert es[|es| - 1] == Entry(k, FromEntries(es)[k]);
    } else {
      FromEntriesLastWins(init, k);
      var i :| 0 <= i < |init| && init[i] == Entry(k, FromEntries(init)[k]) && forall j :: i < j < |init| ==> init[j].key != k;
      assert es[i] == init[i];
      assert forall j :: i < j < |es| - 1 ==> es[j] == init[j];
    }
  }

  /** The dictionary of two runs of entries is the first's overwritten by the second's. */
  lemma {:induction false} FromEntriesConcat(a: seq<Entry>, b: seq<Entry>)
    ensures FromEntries(a + b) == FromEntries(a) + FromEntries(b)
  {
    if b != [] {
      var init := b[..|b| - 1];
      assert (a + b)[..|a + b| - 1] == a + init;
      assert (a + b)[|a + b| - 1] == b[|b| - 1];
      FromEntriesConcat(a, init);
    } else {
      assert a + b == a;
    }
  }

  // ---------------------------------------------------------------------------
  // The parser
  // ---------------------------------------------------------------------------

  /**
   * `parseKeyValueList(data)`. Every key is non-empty and holds neither `=`
   * nor a newline, and every value is free of line terminators. Which keys
   * the result holds is `ParseKeys`, and that a key's value comes from the
   * last line splitting to it is `ParseLastLineWins`; `ParseConcat` and
   * `ParseOneLine` give the result line by line.
   */
  function ParseKeyValueList(data: string): (r: map<string, string>)
    ensures forall k :: k in r ==> k != "" && '=' !in k && '\n' !in k
    ensures forall k :: k in r ==> forall c :: 0 <= c < |r[k]| ==> !IsLineTerminator(r[k][c])
  {
    var es := Entries(SplitLines(data));
    EntriesAreClean(SplitLines(data));
    SplitLinesHaveNoNewline(data);
    var r := FromEntries(es);
    assert forall k :: k in r ==> CleanEntry(Entry(k, r[k])) && '\n' !in k by {
      forall k | k in r
        ensures CleanEntry(Entry(k, r[k])) && '\n' !in k
      {
        FromEntriesLastWins(es, k);
        var i :| 0 <= i < |es| && es[i] == Entry(k, r[k]);
        assert es[i] in es;
        var line :| line in SplitLines(data) && k <= line;
      }
    }
    r
  }

  /** A key is in the result exactly when some line of the input splits to it and it is not empty. */
  lemma ParseKeys(data: string, k: string)
    ensures k in ParseKeyValueList(data)
        <==> k != "" && exists line :: line in SplitLines(data) && SplitEntry(line).key == k
  {
    var es := Entries(SplitLines(data));
    FromEntriesKeys(es);
    EntriesKeys(SplitLines(data), k);
    if k in FromEntries(es) {
      var i :| 0 <= i < |es| && es[i].key == k;
      assert es[i] in es;
    }
    if exists e :: e in es && e.key == k {
      var e :| e in es && e.key == k;
      var i :| 0 <= i < |es| && es[i] == e;
    }
  }

  /** One more line stores its entry on top of the dictionary of the lines before it, unless its key is empty. */
  lemma FromEntriesOfNextLine(init: seq<string>, last: string)
    ensures var e := SplitEntry(last);
      FromEntries(Entries(init + [last]))
        == if e.key != "" then FromEntries(Entries(init))[e.key := e.value] else FromEntries(Entries(init))
  {
    var e := SplitEntry(last);
    var es := Entries(init);
    EntriesConcat(init, [last]);
    assert Entries([last]) == (if e.key != "" then [e] else []) + Entries([]);
    if e.key != "" {
      assert (es + [e])[..|es + [e]| - 1] == es;
    } else {
      assert es + [] == es;
    }
  }

  /** For a non-empty key, the dictionary of the lines' entries holds the value of line `j`, the last splitting to it. */
  lemma {:induction false} LinesLastWins(lines: seq<string>, k: string) returns (j: nat)
    requires k != "" && k in FromEntries(Entries(lines))
    ensures j < |lines| && SplitEntry(lines[j]) == Entry(k, FromEntries(Entries(lines))[k])
    ensures forall j' :: j < j' < |lines| ==> SplitEntry(lines[j']).key != k
  {
    var n := |lines|;
    var init, last := lines[..n - 1], lines[n - 1];
    assert init + [last] == lines;
    FromEntriesOfNextLine(init, last);
    var m, mi := FromEntries(Entries(lines)), FromEntries(Entries(init));
    if SplitEntry(last).key == k {
      j := n - 1;
    } else {
      assert k in mi && m[k] == mi[k];
      j := LinesLastWins(init, k);
      assert lines[j] == init[j];
      forall j' | j < j' < n
        ensures SplitEntry(lines[j']).key != k
      {
        if j' < n - 1 {
          assert lines[j'] == init[j'];
        }
      }
    }
  }

  /** The value of a key in the result is the one from the last line of the input splitting to that key. */
  lemma ParseLastLineWins(data: string, k: string)
    requires k in ParseKeyValueList(data)
    ensures exists j ::
      && 0 <= j < |SplitLines(data)|
      && SplitEntry(SplitLines(data)[j]) == Entry(k, ParseKeyValueList(data)[k])
      && (forall j' :: j < j' < |SplitLines(data)| ==> SplitEntry(SplitLines(data)[j']).key != k)
  {
    var lines := SplitLines(data);
    assert ParseKeyValueList(data) == FromEntries(Entries(lines));
    var j := LinesLastWins(lines, k);
    assert 0 <= j < |lines| && SplitEntry(lines[j]) == Entry(k, ParseKeyValueList(data)[k])
      && (forall j' :: j < j' < |lines| ==> SplitEntry(lines[j']).key != k);
  }

  /** Lines pasted together parse to the union of their dictionaries, the later lines overriding. */
  lemma ParseConcat(a: string, b: string)
    ensures ParseKeyValueList(a + "\n" + b) == ParseKeyValueList(a) + ParseKeyValueList(b)
  {
    SplitLinesConcat(a, b);
    EntriesConcat(SplitLines(a), SplitLines(b));
    FromEntriesConcat(Entries(SplitLines(a)), Entries(SplitLines(b)));
  }

  /** A single line parses to its entry, or to nothing when its key is empty. */
  lemma ParseOneLine(line: string)
    requires '\n' !in line
    ensures var e := SplitEntry(line);
      ParseKeyValueList(line) == if e.key != "" then map[e.key := e.value] else map[]
  {
    SplitLinesOfOneLine(line);
    var e := SplitEntry(line);
    assert Entries([line]) == (if e.key != "" then [e] else []) + Entries([]);
    assert ParseKeyValueList(line) == FromEntries(Entries([line]));
    if e.key != "" {
      assert [e][..0] == [];
      assert FromEntries([e]) == FromEntries([])[e.key := e.value];
    }
  }

  /** The empty text parses to the empty dictionary. */
  lemma ParseEmpty()
    ensures ParseKeyValueList("") == map[]
  {
    ParseOneLine("");
  }

  /** A text of newlines only parses to the empty dictionary. */
  lemma {:induction false} ParseOnlyNewlines(n: nat)
    ensures ParseKeyValueList(seq(n, _ => '\n')) == map[]
  {
    if n == 0 {
      ParseEmpty();
    } else {
      var s := seq(n - 1, _ => '\n');
      assert seq(n, _ => '\n') == "" + "\n" + s;
      ParseConcat("", s);
      ParseEmpty();
      ParseOnlyNewlines(n - 1);
    }
  }

  /** A line `key=value` gives `key` what the capture takes from `value`. */
  lemma ParseKeyLine(key: string, value: string)
    requires key != "" && '=' !in key && '\n' !in key && '\n' !in value
    ensures ParseKeyValueList(key + "=" + value) == map[key := MatchRest(value)]
  {
    SplitAtFirstEquals(key, value);
    var line := key + "=" + value;
    assert forall c :: c in line ==> c in key || c == '=' || c in value;
    ParseOneLine(line);
  }

  /** A line `key=` gives the key the empty value. */
  lemma ParseEmptyValue(key: string)
    requires key != "" && '=' !in key && '\n' !in key
    ensures ParseKeyValueList(key + "=") == map[key := ""]
  {
    ParseKeyLine(key, "");
    assert key + "=" == key + "=" + "";
  }

  /** A line without `=` gives the whole line the empty value. */
  lemma ParseLineWithoutEquals(line: string)
    requires line != "" && '=' !in line && '\n' !in line
    ensures ParseKeyValueList(line) == map[line := ""]
  {
    SplitWithoutEquals(line);
    ParseOneLine(line);
  }

  /** A line starting with `=` contributes nothing. */
  lemma ParseEmptyKey(value: string)
    requires '\n' !in value
    ensures ParseKeyValueList("=" + value) == map[]
  {
    SplitAtFirstEquals("", value);
    assert "" + "=" + value == "=" + value;
    ParseOneLine("=" + value);
  }

  /** When a key repeats, the later line wins. */
  lemma ParseDuplicateKey(key: string, first: string, second: string)
    requires key != "" && '=' !in key && '\n' !in key
    requires '\n' !in first && '\n' !in second
    ensures ParseKeyValueList((key + "=" + first) + "\n" + (key + "=" + second)) == map[key := MatchRest(second)]
  {
    ParseKeyLine(key, first);
    ParseKeyLine(key, second);
    ParseConcat(key + "=" + first, key + "=" + second);
    assert map[key := MatchRest(first)] + map[key := MatchRest(second)] == map[key := MatchRest(second)];
  }

  /**
   * Two clean `key=value` lines with different keys parse to both pairs, as
   * in the simple, empty-value and `=`-in-value unit tests.
   */
  lemma ParseTwoLines(k1: string, v1: string, k2: string, v2: string)
    requires CleanEntry(Entry(k1, v1)) && '\n' !in k1
    requires CleanEntry(Entry(k2, v2)) && '\n' !in k2
    requires k1 != k2
    ensures ParseKeyValueList((k1 + "=" + v1) + "\n" + (k2 + "=" + v2)) == map[k1 := v1, k2 := v2]
  {
    ParseRenderedLine(Entry(k1, v1));
    ParseRenderedLine(Entry(k2, v2));
    ParseConcat(k1 + "=" + v1, k2 + "=" + v2);
  }

  /** The simple unit test's input: two clean lines with different keys. */
  lemma SimpleInput()
    ensures "key1=value1\nkey2=value2" == ("key1" + "=" + "value1") + "\n" + ("key2" + "=" + "value2")
    ensures CleanEntry(Entry("key1", "value1")) && CleanEntry(Entry("key2", "value2"))
    ensures "key1" != "key2"
  {
    assert "key1"[3] != "key2"[3];
  }

  /** Unit-test example: two plain lines. */
  lemma ParseSimpleExample()
    ensures ParseKeyValueList("key1=value1\nkey2=value2") == map["key1" := "value1", "key2" := "value2"]
  {
    SimpleInput();
    ParseTwoLines("key1", "value1", "key2", "value2");
  }

  /** The empty-value unit test's input: two clean lines with different keys. */
  lemma EmptyValueInput()
    ensures "key1=\nkey2=value2" == ("key1" + "=" + "") + "\n" + ("key2" + "=" + "value2")
    ensures CleanEntry(Entry("key1", "")) && CleanEntry(Entry("key2", "value2"))
    ensures "key1" != "key2"
  {
    assert "key1"[3] != "key2"[3];
  }

  /** Unit-test example: a line with nothing after its `=`. */
  lemma ParseEmptyValueExample()
    ensures ParseKeyValueList("key1=\nkey2=value2") == map["key1" := "", "key2" := "value2"]
  {
    EmptyValueInput();
    ParseTwoLines("key1", "", "key2", "value2");
  }

  /** The equals-in-value unit test's input: two clean lines with different keys. */
  lemma EqualsInValueInput()
    ensures "key1=value=with=equals\nkey2=simple" == ("key1" + "=" + "value=with=equals") + "\n" + ("key2" + "=" + "simple")
    ensures CleanEntry(Entry("key1", "value=with=equals")) && CleanEntry(Entry("key2", "simple"))
    ensures "key1" != "key2"
  {
    assert "key1"[3] != "key2"[3];
  }

  /** Unit-test example: `=` characters after the first belong to the value. */
  lemma ParseEqualsInValueExample()
    ensures ParseKeyValueList("key1=value=with=equals\nkey2=simple") == map["key1" := "value=with=equals", "key2" := "simple"]
  {
    EqualsInValueInput();
    ParseTwoLines("key1", "value=with=equals", "key2", "simple");
  }

  /** Unit-test example: only newlines. */
  lemma ParseNewlinesExample()
    ensures ParseKeyValueList("\n\n\n") == map[]
  {
    ParseOnlyNewlines(3);
    assert seq(3, _ => '\n') == "\n\n\n";
  }

  // ---------------------------------------------------------------------------
  // Round trip
  // ---------------------------------------------------------------------------

  /** The text that lists `es` as `key=value` lines, in order. */
  function Render(es: seq<Entry>): string {
    if es == [] then ""
    else if |es| == 1 then es[0].key + "=" + es[0].value
    else es[0].key + "=" + es[0].value + "\n" + Render(es[1..])
  }

  /** A clean entry whose key has no newline parses back from its line. */
  lemma ParseRenderedLine(e: Entry)
    requires CleanEntry(e) && '\n' !in e.key
    ensures ParseKeyValueList(e.key + "=" + e.value) == map[e.key := e.value]
  {
    MatchRestOfCleanValue(e.value);
    assert '\n' !in e.value by {
      forall c | 0 <= c < |e.value|
        ensures e.value[c] != '\n'
      {
        assert !IsLineTerminator(e.value[c]);
      }
    }
    ParseKeyLine(e.key, e.value);
  }

  /** Rendering clean entries and parsing the text is `Object.fromEntries` of those entries. */
  lemma {:induction false} ParseRender(es: seq<Entry>)
    requires forall e :: e in es ==> CleanEntry(e) && '\n' !in e.key
    ensures ParseKeyValueList(Render(es)) == FromEntries(es)
  {
    if es == [] {
      ParseEmpty();
    } else {
      assert es[0] in es;
      ParseRenderedLine(es[0]);
      assert FromEntries([es[0]]) == map[es[0].key := es[0].value];
      if |es| > 1 {
        assert forall e :: e in es[1..] ==> e in es;
        ParseRender(es[1..]);
        ParseConcat(es[0].key + "=" + es[0].value, Render(es[1..]));
        FromEntriesConcat([es[0]], es[1..]);
        assert [es[0]] + es[1..] == es;
      }
    }
  }

  /** The entries of a dictionary, in some order. */
  ghost function EntriesOf(m: map<string, string>): (es: seq<Entry>)
    ensures forall e :: e in es ==> e.key in m && m[e.key] == e.value
    ensures |es| == |m|
    decreases |m|
  {
    if m == map[] then []
    else
      var k :| k in m;
      var rest := m - {k};
      [Entry(k, m[k])] + EntriesOf(rest)
  }

  /** A dictionary is its entry for `k` together with the rest of it. */
  lemma SplitMap(m: map<string, string>, k: string)
    requires k in m
    ensures m == map[k := m[k]] + (m - {k})
  {
  }

  /** The entries of a dictionary rebuild it. */
  lemma {:induction false} FromEntriesOf(m: map<string, string>)
    ensures FromEntries(EntriesOf(m)) == m
    decreases |m|
  {
    if m != map[] {
      var es := EntriesOf(m);
      var k := es[0].key;
      var rest := m - {k};
      assert es == [Entry(k, m[k])] + EntriesOf(rest);
      FromEntriesOf(rest);
      FromEntriesConcat([Entry(k, m[k])], EntriesOf(rest));
      assert FromEntries([Entry(k, m[k])]) == map[k := m[k]];
      SplitMap(m, k);
    }
  }

  /**
   * The round trip the documentation example shows: a dictionary whose keys
   * are non-empty and free of `=` and newlines, and whose values are free of
   * line terminators, parses back from its `key=value` lines.
   */
  lemma ParseRenderedMap(m: map<string, string>)
    requires forall k :: k in m ==> CleanEntry(Entry(k, m[k])) && '\n' !in k
    ensures ParseKeyValueList(Render(EntriesOf(m))) == m
  {
    var es := EntriesOf(m);
    assert forall e :: e in es ==> e == Entry(e.key, m[e.key]);
    ParseRender(es);
    FromEntriesOf(m);
  }
}
