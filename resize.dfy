/** File-system detection and growth: reading the file-system and
    partition-table types from `blkid -o export` output, and choosing the
    command that grows a file system after its volume has been enlarged. */
module Resize {
  import opened Common
  import opened GoStrings
  import opened Host

  /** What `getDiskType` reports for a device with a partition table, so
      that nothing formats it. */
  const PartitionsMarker: string := "unknown data, probably partitions"

  // ----- trimQuotes

  /** `trimQuotes`: one enclosing pair of '"' comes off; anything shorter
      than two characters or not quoted at both ends is kept. */
  function TrimQuotes(s: string): (r: string)
    ensures r == s || "\"" + r + "\"" == s
    ensures r != s <==> |s| >= 2 && s[0] == '"' && s[|s| - 1] == '"'
  {
    if |s| >= 2 && s[0] == '"' && s[|s| - 1] == '"' then
      assert "\"" + s[1..|s| - 1] + "\"" == s;
      s[1..|s| - 1]
    else s
  }

  /** Quoting a value and trimming the quotes gives the value back. */
  lemma TrimQuotesRoundTrip(v: string)
    ensures TrimQuotes("\"" + v + "\"") == v
  {
    var q := "\"" + v + "\"";
    assert q[1..|q| - 1] == v;
  }

  /** A value that does not start with a quote is kept as it is. */
  lemma TrimQuotesUnquoted(v: string)
    requires v == "" || v[0] != '"'
    ensures TrimQuotes(v) == v
  {
  }

  // ----- getDiskType

  /** The last values seen for the `TYPE` and `PTTYPE` keys. */
  datatype Found = Found(fstype: string, pttype: string)

  /** The key of a `KEY=value` token: present only for a non-empty token
      that, once stripped of newlines at both ends, splits into exactly two
      parts on '='. */
  function KeyValue(token: string): Option<(string, string)> {
    if token == "" then None
    else
      var cs := Split(Trim(token, "\n"), "=");
      if |cs| != 2 then None else Some((cs[0], cs[1]))
  }

  /** One token of the loop in `getDiskType`: a `TYPE` or `PTTYPE` token
      replaces the value kept for its key; every other token is ignored. */
  function Absorb(found: Found, token: string): Found {
    match KeyValue(token)
    case None => found
    case Some((key, value)) =>
      if key == "TYPE" then found.(fstype := TrimQuotes(value))
      else if key == "PTTYPE" then found.(pttype := TrimQuotes(value))
      else found
  }

  /** The tokens absorbed one after another, from the first to the last. */
  function Scan(found: Found, tokens: seq<string>): Found
    decreases |tokens|
  {
    if tokens == [] then found else Scan(Absorb(found, tokens[0]), tokens[1..])
  }

  /** `getDiskType`: a partition table wins; otherwise the last `TYPE`. */
  function DiskType(output: string, sep: string): (r: string)
    requires sep != ""
    ensures Scan(Found("", ""), Split(output, sep)).pttype != "" ==> r == PartitionsMarker
  {
    Verdict(Scan(Found("", ""), Split(output, sep)))
  }

  /** The loop of `getDiskType`. The separator is "\n" or " " at every
      call; Go's split on an empty separator is not modelled. */
  method GetDiskType(disk: string, output: string, sep: string) returns (r: string)
    requires sep != ""
    ensures r == DiskType(output, sep)
  {
    var fstype, pttype := "", "";
    var lines := Split(output, sep);
    var i := 0;
    while i < |lines|
      invariant 0 <= i <= |lines|
      invariant Scan(Found(fstype, pttype), lines[i..]) == Scan(Found("", ""), lines)
    {
      assert lines[i..][1..] == lines[i + 1..];
      var l := lines[i];
      if |l| > 0 {
        l := Trim(l, "\n");
        var cs := Split(l, "=");
        if |cs| == 2 {
          if cs[0] == "TYPE" {
            fstype := TrimQuotes(cs[1]);
          } else if cs[0] == "PTTYPE" {
            pttype := TrimQuotes(cs[1]);
          }
        }
      }
      i := i + 1;
    }
    assert lines[i..] == [];
    if |pttype| > 0 {
      return PartitionsMarker;
    }
    r := fstype;
  }

  /** Absorbing one more token after a run of tokens. */
  lemma {:induction false} ScanSnoc(found: Found, tokens: seq<string>, t: string)
    ensures Scan(found, tokens + [t]) == Absorb(Scan(found, tokens), t)
    decreases |tokens|
  {
    if tokens == [] {
      assert tokens + [t] == [t];
      assert [t][1..] == [];
    } else {
      assert (tokens + [t])[1..] == tokens[1..] + [t];
      ScanSnoc(Absorb(found, tokens[0]), tokens[1..], t);
    }
  }

  /** Absorbing two runs of tokens one after the other. */
  lemma {:induction false} ScanAppend(found: Found, a: seq<string>, b: seq<string>)
    ensures Scan(found, a + b) == Scan(Scan(found, a), b)
    decreases |a|
  {
    if a == [] {
      assert a + b == b;
    } else {
      assert (a + b)[1..] == a[1..] + b;
      ScanAppend(Absorb(found, a[0]), a[1..], b);
    }
  }

  /** A token carries `key`. */
  predicate HasKey(token: string, key: string) {
    KeyValue(token).Some? && KeyValue(token).value.0 == key
  }

  /** Tokens without a `PTTYPE` key leave the partition-table type alone,
      and tokens without a `TYPE` key leave the file-system type alone. */
  lemma {:induction false} ScanKeeps(found: Found, tokens: seq<string>)
    ensures (forall k :: 0 <= k < |tokens| ==> !HasKey(tokens[k], "PTTYPE")) ==> Scan(found, tokens).pttype == found.pttype
    ensures (forall k :: 0 <= k < |tokens| ==> !HasKey(tokens[k], "TYPE")) ==> Scan(found, tokens).fstype == found.fstype
    decreases |tokens|
  {
    if tokens != [] {
      ScanKeeps(Absorb(found, tokens[0]), tokens[1..]);
      if forall k :: 0 <= k < |tokens| ==> !HasKey(tokens[k], "PTTYPE") {
        assert !HasKey(tokens[0], "PTTYPE");
        assert forall k :: 0 <= k < |tokens[1..]| ==> !HasKey(tokens[1..][k], "PTTYPE") by {
          forall k | 0 <= k < |tokens[1..]| ensures !HasKey(tokens[1..][k], "PTTYPE") {
            assert tokens[1..][k] == tokens[k + 1];
          }
        }
      }
      if forall k :: 0 <= k < |tokens| ==> !HasKey(tokens[k], "TYPE") {
        assert !HasKey(tokens[0], "TYPE");
        assert forall k :: 0 <= k < |tokens[1..]| ==> !HasKey(tokens[1..][k], "TYPE") by {
          forall k | 0 <= k < |tokens[1..]| ensures !HasKey(tokens[1..][k], "TYPE") {
            assert tokens[1..][k] == tokens[k + 1];
          }
        }
      }
    }
  }

  /** A `KEY=value` token with no other '=' and no newline reads as that
      key and value. */
  lemma KeyValueOf(key: string, value: string)
    requires key != "" && '=' !in key && '=' !in value
    requires key[0] != '\n' && (value == "" || value[|value| - 1] != '\n')
    ensures KeyValue(key + "=" + value) == Some((key, value))
  {
    var t := key + "=" + value;
    assert t[0] == key[0];
    assert t[|t| - 1] == if value == "" then '=' else value[|value| - 1];
    TrimUntouched(t, "\n");
    SplitPair(key, value);
  }

  /** A key and a value without '=' joined by '=' split back into the two. */
  lemma SplitPair(key: string, value: string)
    requires '=' !in key && '=' !in value
    ensures Split(key + "=" + value, "=") == [key, value]
  {
    NoChar(key, '=');
    NoChar(value, '=');
    SplitWithout(value, "=");
    SplitCons(key, '=', value);
  }

  /** A character missing from a text does not occur in it as a one-letter
      text either. */
  lemma NoChar(s: string, c: char)
    requires c !in s
    ensures !Contains(s, [c])
  {
    ContainsChar(s, c);
  }

  /** A text whose ends are outside the cutset is not trimmed. */
  lemma TrimUntouched(s: string, cutset: string)
    requires s != "" && s[0] !in cutset && s[|s| - 1] !in cutset
    ensures Trim(s, cutset) == s
  {
  }

  /** A token with a `TYPE` key sets the file-system type; one with a
      `PTTYPE` key sets the partition-table type. */
  lemma AbsorbKey(found: Found, token: string, key: string, value: string)
    requires KeyValue(token) == Some((key, value))
    ensures key == "TYPE" ==> Absorb(found, token) == found.(fstype := TrimQuotes(value))
    ensures key == "PTTYPE" ==> Absorb(found, token) == found.(pttype := TrimQuotes(value))
  {
  }

  /** Any other token leaves both types alone. */
  lemma AbsorbOther(found: Found, token: string)
    requires !HasKey(token, "TYPE") && !HasKey(token, "PTTYPE")
    ensures Absorb(found, token) == found
  {
  }

  /** Whatever came before, the last `TYPE` token decides the file-system
      type. */
  lemma LastTypeWins(found: Found, tokens: seq<string>, value: string)
    requires '=' !in value && (value == "" || value[|value| - 1] != '\n')
    ensures Scan(found, tokens + ["TYPE=" + value]).fstype == TrimQuotes(value)
  {
    KeyToken("TYPE", "TYPE=", value);
    LastKeyWins(found, tokens, "TYPE=" + value, value, "TYPE");
  }

  /** `TYPE=` or `PTTYPE=` followed by the value reads as the key and
      the value. */
  lemma KeyToken(key: string, prefix: string, value: string)
    requires (key == "TYPE" && prefix == "TYPE=") || (key == "PTTYPE" && prefix == "PTTYPE=")
    requires '=' !in value && (value == "" || value[|value| - 1] != '\n')
    ensures KeyValue(prefix + value) == Some((key, value))
  {
    KeyPrefix(key, prefix);
    KeyValueOf(key, value);
  }

  lemma KeyPrefix(key: string, prefix: string)
    requires (key == "TYPE" && prefix == "TYPE=") || (key == "PTTYPE" && prefix == "PTTYPE=")
    ensures prefix == key + "="
  {
  }

  lemma LastKeyWins(found: Found, tokens: seq<string>, t: string, value: string, key: string)
    requires key == "TYPE"
    requires KeyValue(t) == Some((key, value))
    ensures Scan(found, tokens + [t]).fstype == TrimQuotes(value)
  {
    ScanSnoc(found, tokens, t);
    AbsorbKey(Scan(found, tokens), t, key, value);
  }

  /** A `PTTYPE` token with a value that stays non-empty once unquoted
      makes the device read as partitioned, whatever `TYPE` tokens come
      before or after it, as long as no later `PTTYPE` token replaces it. */
  lemma PartitionTableWins(before: seq<string>, value: string, after: seq<string>)
    requires '=' !in value && value != "" && value[|value| - 1] != '\n'
    requires forall k :: 0 <= k < |after| ==> !HasKey(after[k], "PTTYPE")
    ensures Scan(Found("", ""), before + ["PTTYPE=" + value] + after).pttype == TrimQuotes(value)
  {
    KeyToken("PTTYPE", "PTTYPE=", value);
    PartitionKeyWins(before, "PTTYPE=" + value, value, after);
  }

  lemma PartitionKeyWins(before: seq<string>, t: string, value: string, after: seq<string>)
    requires KeyValue(t) == Some(("PTTYPE", value))
    requires forall k :: 0 <= k < |after| ==> !HasKey(after[k], "PTTYPE")
    ensures Scan(Found("", ""), before + [t] + after).pttype == TrimQuotes(value)
  {
    ScanAppend(Found("", ""), before + [t], after);
    ScanSnoc(Found("", ""), before, t);
    AbsorbKey(Scan(Found("", ""), before), t, "PTTYPE", value);
    ScanKeeps(Scan(Found("", ""), before + [t]), after);
  }

  // ----- the table of examples for getDiskType

  /** Three pieces joined by a character they do not hold split back into
      those pieces. */
  lemma SplitThree(a: string, b: string, c: string, ch: char)
    requires ch !in a && ch !in b && ch !in c
    ensures Split(a + [ch] + b + [ch] + c, [ch]) == [a, b, c]
  {
    NoChar(a, ch);
    NoChar(b, ch);
    NoChar(c, ch);
    SplitWithout(c, [ch]);
    SplitCons(b, ch, c);
    assert a + [ch] + b + [ch] + c == a + [ch] + (b + [ch] + c);
    SplitCons(a, ch, b + [ch] + c);
  }

  /** Three tokens absorbed in order. */
  lemma ScanThree(found: Found, a: string, b: string, c: string)
    ensures Scan(found, [a, b, c]) == Absorb(Absorb(Absorb(found, a), b), c)
  {
    assert [a, b, c][1..] == [b, c] && [b, c][1..] == [c] && [c][1..] == [];
    assert Scan(found, [a, b, c]) == Scan(Absorb(found, a), [b, c]);
    assert Scan(Absorb(found, a), [b, c]) == Scan(Absorb(Absorb(found, a), b), [c]);
  }

  /** The verdict of `getDiskType` on what the loop kept. */
  function Verdict(found: Found): string {
    if |found.pttype| > 0 then PartitionsMarker else found.fstype
  }

  /** Three pieces joined by the separator are read as those three tokens. */
  lemma DiskTypeThree(a: string, b: string, c: string, sep: string)
    requires |sep| == 1 && sep[0] !in a && sep[0] !in b && sep[0] !in c
    ensures DiskType(a + sep + b + sep + c, sep) == Verdict(Absorb(Absorb(Absorb(Found("", ""), a), b), c))
  {
    assert sep == [sep[0]];
    SplitThree(a, b, c, sep[0]);
    ScanThree(Found("", ""), a, b, c);
  }

  /** Empty output has no type. */
  lemma DiskTypeEmpty()
    ensures DiskType("", "\n") == ""
  {
    assert Split("", "\n") == [""];
  }

  /** A `TYPE=value` token sets the file-system type. */
  lemma AbsorbType(found: Found, value: string)
    requires '=' !in value && '\n' !in value
    ensures Absorb(found, "TYPE" + "=" + value) == found.(fstype := TrimQuotes(value))
  {
    KeyValueOf("TYPE", value);
    AbsorbKey(found, "TYPE" + "=" + value, "TYPE", value);
  }

  /** A `PTTYPE=value` token sets the partition-table type. */
  lemma AbsorbPartitionType(found: Found, value: string)
    requires '=' !in value && '\n' !in value
    ensures Absorb(found, "PTTYPE" + "=" + value) == found.(pttype := TrimQuotes(value))
  {
    KeyValueOf("PTTYPE", value);
    AbsorbKey(found, "PTTYPE" + "=" + value, "PTTYPE", value);
  }

  /** A token with any other key is ignored. */
  lemma AbsorbOtherKey(found: Found, key: string, value: string)
    requires key != "" && '=' !in key && '=' !in value && '\n' !in key && '\n' !in value
    requires key != "TYPE" && key != "PTTYPE"
    ensures Absorb(found, key + "=" + value) == found
  {
    KeyValueOf(key, value);
    AbsorbOther(found, key + "=" + value);
  }

  /** An empty token is skipped. */
  lemma AbsorbEmpty(found: Found)
    ensures Absorb(found, "") == found
  {
  }

  /** Old-style output, one key per line, reporting a file system: its
      type is found. */
  lemma DiskTypeLinesType(dev: string, v: string)
    requires '=' !in dev && '\n' !in dev && '=' !in v && '\n' !in v
    ensures DiskType("DEVNAME=" + dev + "\n" + "TYPE=" + v + "\n", "\n") == TrimQuotes(v)
  {
    var a, b := "DEVNAME" + "=" + dev, "TYPE" + "=" + v;
    assert "DEVNAME=" + dev + "\n" + "TYPE=" + v + "\n" == a + "\n" + b + "\n" + "";
    DiskTypeThree(a, b, "", "\n");
    VerdictTYPE(dev, v);
  }

  lemma VerdictTYPE(dev: string, v: string)
    requires '=' !in dev && '\n' !in dev && '=' !in v && '\n' !in v
    ensures Verdict(Absorb(Absorb(Absorb(Found("", ""), "DEVNAME" + "=" + dev), "TYPE" + "=" + v), "")) == TrimQuotes(v)
  {
    AbsorbOtherKey(Found("", ""), "DEVNAME", dev);
    AbsorbType(Found("", ""), v);
    AbsorbEmpty(Found(TrimQuotes(v), ""));
  }

  /** Old-style output reporting a partition table: the device reads as
      partitioned. */
  lemma DiskTypeLinesPartition(dev: string, v: string)
    requires '=' !in dev && '\n' !in dev && '=' !in v && '\n' !in v && TrimQuotes(v) != ""
    ensures DiskType("DEVNAME=" + dev + "\n" + "PTTYPE=" + v + "\n", "\n") == PartitionsMarker
  {
    var a, b := "DEVNAME" + "=" + dev, "PTTYPE" + "=" + v;
    assert "DEVNAME=" + dev + "\n" + "PTTYPE=" + v + "\n" == a + "\n" + b + "\n" + "";
    DiskTypeThree(a, b, "", "\n");
    VerdictPTTYPE(dev, v);
  }

  lemma VerdictPTTYPE(dev: string, v: string)
    requires '=' !in dev && '\n' !in dev && '=' !in v && '\n' !in v && TrimQuotes(v) != ""
    ensures Verdict(Absorb(Absorb(Absorb(Found("", ""), "DEVNAME" + "=" + dev), "PTTYPE" + "=" + v), "")) == PartitionsMarker
  {
    AbsorbOtherKey(Found("", ""), "DEVNAME", dev);
    AbsorbPartitionType(Found("", ""), v);
    AbsorbEmpty(Found("", TrimQuotes(v)));
  }

  /** Old-style output for an xfs device and for a device with a DOS
      partition table. */
  lemma DiskTypeOldFormat()
    ensures DiskType("DEVNAME=/dev/loop3\nTYPE=xfs\n", "\n") == "xfs"
    ensures DiskType("DEVNAME=/dev/loop0\nPTTYPE=dos\n", "\n") == PartitionsMarker
  {
    OldFormatXfs("/dev/loop3", "xfs");
    OldFormatDos("/dev/loop0", "dos");
  }

  lemma OldFormatXfs(dev: string, v: string)
    requires dev == "/dev/loop3" && v == "xfs"
    ensures DiskType("DEVNAME=/dev/loop3\nTYPE=xfs\n", "\n") == "xfs"
  {
    assert "DEVNAME=/dev/loop3\nTYPE=xfs\n" == "DEVNAME=" + dev + "\n" + "TYPE=" + v + "\n";
    assert TrimQuotes(v) == v;
    DiskTypeLinesType(dev, v);
  }

  lemma OldFormatDos(dev: string, v: string)
    requires dev == "/dev/loop0" && v == "dos"
    ensures DiskType("DEVNAME=/dev/loop0\nPTTYPE=dos\n", "\n") == PartitionsMarker
  {
    assert "DEVNAME=/dev/loop0\nPTTYPE=dos\n" == "DEVNAME=" + dev + "\n" + "PTTYPE=" + v + "\n";
    assert TrimQuotes(v) == v;
    DiskTypeLinesPartition(dev, v);
  }

  /** The one-line output of newer `blkid`,
      `/dev/loop3: UUID="<uuid>" TYPE="xfs"`: read line by line, the line
      holds two '=' and is ignored; read token by token, its `TYPE` is
      found. */
  lemma DiskTypeNewFormat(uuid: string)
    requires '=' !in uuid && ' ' !in uuid && '\n' !in uuid && '"' !in uuid
    ensures DiskType("/dev/loop3: UUID=\"" + uuid + "\" TYPE=\"xfs\"\n", "\n") == ""
    ensures DiskType("/dev/loop3: UUID=\"" + uuid + "\" TYPE=\"xfs\"\n", " ") == "xfs"
  {
    NewFormatByLine(uuid);
    NewFormatByToken(uuid);
  }

  /** A token holding '=' twice has no key. */
  lemma TwoEquals(p0: string, p1: string, p2: string)
    requires '=' !in p0 && '=' !in p1 && '=' !in p2 && p0 != "" && p0[0] != '\n'
    requires p2 != "" && p2[|p2| - 1] != '\n'
    ensures KeyValue(p0 + ['='] + p1 + ['='] + p2).None?
  {
    var t := p0 + ['='] + p1 + ['='] + p2;
    assert t[0] == p0[0] && t[|t| - 1] == p2[|p2| - 1];
    TrimUntouched(t, "\n");
    SplitThree(p0, p1, p2, '=');
  }

  /** A single line ended by a newline is read as that line and an empty
      token. */
  lemma DiskTypeOneLine(line: string)
    requires '\n' !in line
    ensures DiskType(line + "\n", "\n") == Verdict(Absorb(Absorb(Found("", ""), line), ""))
  {
    NoChar(line, '\n');
    SplitCons(line, '\n', "");
    assert line + "\n" == line + ['\n'] + "";
    assert Split("", "\n") == [""];
    assert [line, ""][1..] == [""] && [""][1..] == [];
    var f := Absorb(Found("", ""), line);
    assert Scan(Found("", ""), [line, ""]) == Scan(f, [""]);
    assert Scan(f, [""]) == Scan(Absorb(f, ""), []);
  }

  lemma NewFormatByLine(uuid: string)
    requires '=' !in uuid && '\n' !in uuid
    ensures DiskType("/dev/loop3: UUID=\"" + uuid + "\" TYPE=\"xfs\"\n", "\n") == ""
  {
    var p0, p1, p2 := "/dev/loop3: UUID", "\"" + uuid + "\" TYPE", "\"xfs\"";
    NewFormatLineShape(uuid, p0, p1, p2);
    NewFormatLineIgnored(p0, p1, p2);
    DiskTypeOneLine(p0 + ['='] + p1 + ['='] + p2);
  }

  lemma NewFormatLineShape(uuid: string, p0: string, p1: string, p2: string)
    requires p0 == "/dev/loop3: UUID" && p1 == "\"" + uuid + "\" TYPE" && p2 == "\"xfs\""
    requires '=' !in uuid && '\n' !in uuid
    ensures "/dev/loop3: UUID=\"" + uuid + "\" TYPE=\"xfs\"\n" == p0 + ['='] + p1 + ['='] + p2 + "\n"
    ensures '=' !in p1 && '\n' !in p1 && '\n' !in p0 + ['='] + p1 + ['='] + p2
  {
  }

  lemma NewFormatLineIgnored(p0: string, p1: string, p2: string)
    requires p0 == "/dev/loop3: UUID" && p2 == "\"xfs\"" && '=' !in p1 && '\n' !in p1
    ensures Verdict(Absorb(Absorb(Found("", ""), p0 + ['='] + p1 + ['='] + p2), "")) == ""
  {
    TwoEquals(p0, p1, p2);
    AbsorbOther(Found("", ""), p0 + ['='] + p1 + ['='] + p2);
    AbsorbEmpty(Found("", ""));
  }

  lemma NewFormatByToken(uuid: string)
    requires '=' !in uuid && ' ' !in uuid && '\n' !in uuid && '"' !in uuid
    ensures DiskType("/dev/loop3: UUID=\"" + uuid + "\" TYPE=\"xfs\"\n", " ") == "xfs"
  {
    var d, q, x := "/dev/loop3:", "\"" + uuid + "\"", "\"xfs\"";
    NewFormatTokenShape(uuid, d, q, x);
    XfsUnquoted(x);
    TokensTypeLast(d, q, x);
    DiskTypeThree(d, "UUID" + "=" + q, "TYPE" + "=" + x + "\n", " ");
  }

  lemma XfsUnquoted(x: string)
    requires x == "\"xfs\""
    ensures TrimQuotes(x) == "xfs"
  {
    assert x == "\"" + "xfs" + "\"";
    TrimQuotesRoundTrip("xfs");
  }

  lemma NewFormatTokenShape(uuid: string, d: string, q: string, x: string)
    requires d == "/dev/loop3:" && q == "\"" + uuid + "\"" && x == "\"xfs\""
    requires ' ' !in uuid
    ensures "/dev/loop3: UUID=\"" + uuid + "\" TYPE=\"xfs\"\n"
         == d + " " + ("UUID" + "=" + q) + " " + ("TYPE" + "=" + x + "\n")
    ensures ' ' !in d && ' ' !in "UUID" + "=" + q && ' ' !in "TYPE" + "=" + x + "\n"
  {
  }

  /** A token without a key, a token with another key, then a `TYPE`
      token ended by a newline: the type is that of the last token. */
  lemma TokensTypeLast(d: string, q: string, x: string)
    requires d != "" && '=' !in d && '\n' !in d
    requires '=' !in q && '\n' !in q && x != "" && '=' !in x && '\n' !in x
    ensures Verdict(Absorb(Absorb(Absorb(Found("", ""), d), "UUID" + "=" + q), "TYPE" + "=" + x + "\n")) == TrimQuotes(x)
  {
    AbsorbNoKey(Found("", ""), d);
    AbsorbOtherKey(Found("", ""), "UUID", q);
    AbsorbTypeLine(Found("", ""), x);
  }

  /** A token without '=' is ignored. */
  lemma AbsorbNoKey(found: Found, token: string)
    requires token != "" && '=' !in token && '\n' !in token
    ensures Absorb(found, token) == found
  {
    TrimUntouched(token, "\n");
    NoChar(token, '=');
    SplitWithout(token, "=");
  }

  /** A `TYPE=value` token followed by a newline sets the file-system
      type. */
  lemma AbsorbTypeLine(found: Found, value: string)
    requires value != "" && '=' !in value && '\n' !in value
    ensures Absorb(found, "TYPE" + "=" + value + "\n") == found.(fstype := TrimQuotes(value))
  {
    KeyValueTypeLine(value);
    AbsorbKey(found, "TYPE" + "=" + value + "\n", "TYPE", value);
  }

  lemma KeyValueTypeLine(value: string)
    requires value != "" && '=' !in value && '\n' !in value
    ensures KeyValue("TYPE" + "=" + value + "\n") == Some(("TYPE", value))
  {
    TrimNewlineAfter("TYPE" + "=" + value);
    SplitPair("TYPE", value);
  }

  /** A trailing newline is trimmed off a token that starts and ends with
      other characters. */
  lemma TrimNewlineAfter(t: string)
    requires t != "" && t[0] != '\n' && t[|t| - 1] != '\n'
    ensures Trim(t + "\n", "\n") == t
  {
    var s := t + "\n";
    assert s[0] == t[0];
    assert TrimLeft(s, "\n") == s;
    assert s[..|s| - 1] == t;
    assert TrimRight(t, "\n") == t;
  }

  // ----- GetDiskFormat and Resize

  /** The command whose output `GetDiskFormat` reads. */
  function BlkidCommand(disk: string): string {
    "blkid -p -s TYPE -s PTTYPE -o export " + disk
  }

  /** `GetDiskFormat` as a function of what `blkid` did: exit status 2
      means an unformatted disk; the output is read line by line and, when
      that finds nothing, token by token; when neither finds a type the
      output is refused. */
  function DiskFormat(reply: BlkidReply): (r: Result<string>)
    ensures reply.ExitStatus? ==> (r == Ok("") <==> reply.status == 2)
    ensures reply.Printed? && r.Ok? ==> r.value != ""
  {
    match reply
    case ExitStatus(status, msg) => if status == 2 then Ok("") else Err(msg)
    case Printed(output) =>
      var byLine := DiskType(output, "\n");
      if byLine != "" then Ok(byLine)
      else
        var byToken := DiskType(output, " ");
        if byToken != "" then Ok(byToken)
        else Err("blkid returns invalid output: " + output)
  }

  /** The line-by-line reading is preferred; the token-by-token reading is
      only a fall-back. */
  lemma DiskFormatPrefersLines(output: string)
    ensures DiskType(output, "\n") != "" ==> DiskFormat(Printed(output)) == Ok(DiskType(output, "\n"))
    ensures DiskType(output, "\n") == "" ==> (
      DiskFormat(Printed(output)).Ok? <==> DiskType(output, " ") != "")
  {
  }

  /** The command `Resize` runs to grow a file system of type `format`:
      ext3 and ext4 are grown through the device, xfs through its mount
      point, and nothing else can be grown. */
  function ResizeCommand(format: string, devicePath: string, deviceMountPath: string): (r: Option<string>)
    ensures r.Some? <==> format in {"ext3", "ext4", "xfs"}
    ensures format == "xfs" ==> r == Some("xfs_growfs -d " + deviceMountPath)
    ensures format == "ext3" || format == "ext4" ==> r == Some("resize2fs " + devicePath)
  {
    if format == "ext3" || format == "ext4" then Some("resize2fs " + devicePath)
    else if format == "xfs" then Some("xfs_growfs -d " + deviceMountPath)
    else None
  }

  lemma SnocTwo(log: seq<HostEvent>, x: HostEvent, y: HostEvent)
    ensures log + [x] + [y] == log + [x, y]
  {
  }

  /** `ResizeFs`: file-system probing and growth on the node. */
  class ResizeFs {
    const host: Host

    constructor(host: Host)
      ensures this.host == host
    {
      this.host := host;
    }

    /** `GetDiskFormat`. */
    method GetDiskFormat(disk: string) returns (r: Result<string>, ghost reply: BlkidReply)
      modifies host
      ensures host.loops == old(host.loops)
      ensures host.log == old(host.log) + [HostEvent(Run(BlkidCommand(disk)), reply.Printed?)]
      ensures r == DiskFormat(reply)
    {
      var answer := host.Blkid(disk);
      reply := answer;
      if answer.ExitStatus? {
        if answer.status == 2 {
          return Ok(""), reply;
        }
        return Err(answer.msg), reply;
      }
      var fstype := GetDiskType(disk, answer.output, "\n");
      if |fstype| == 0 {
        fstype := GetDiskType(disk, answer.output, " ");
        if |fstype| == 0 {
          return Err("blkid returns invalid output: " + answer.output), reply;
        }
      }
      r := Ok(fstype);
    }

    /** The messages of `Resize`. */
    function FormatCheckError(devicePath: string, msg: string): string {
      "ResizeFS.Resize - error checking format for device " + devicePath + ": " + msg
    }

    function UnsupportedFormatError(format: string, devicePath: string, deviceMountPath: string): string {
      "ResizeFS.Resize - resize of format " + format + " is not supported for device "
      + devicePath + " mounted at " + deviceMountPath
    }

    /** An xfs file system is named by its mount point, any other by its
        device. */
    function ResizeError(format: string, devicePath: string, deviceMountPath: string, msg: string): string {
      var target := if format == "xfs" then deviceMountPath else devicePath;
      "resize of device " + target + " failed: " + msg
    }

    /** `Resize`: an unformatted device needs nothing; a known file system
        is grown by its command; any other format is refused. `Ok(true)`
        means the file system was grown. */
    method Resize(devicePath: string, deviceMountPath: string) returns (r: Result<bool>, ghost reply: BlkidReply)
      modifies host
      ensures host.loops == old(host.loops)
      ensures |host.log| > |old(host.log)|
      ensures host.log[..|old(host.log)| + 1] == old(host.log) + [HostEvent(Run(BlkidCommand(devicePath)), reply.Printed?)]
      ensures DiskFormat(reply).Err? ==> r.Err? && |host.log| == |old(host.log)| + 1
      ensures DiskFormat(reply) == Ok("") ==> r == Ok(false) && |host.log| == |old(host.log)| + 1
      ensures DiskFormat(reply).Ok? && DiskFormat(reply).value != "" ==> (
        var command := ResizeCommand(DiskFormat(reply).value, devicePath, deviceMountPath);
        (command.None? ==> r.Err? && |host.log| == |old(host.log)| + 1)
        && (command.Some? ==>
              r != Ok(false)
              && host.log == old(host.log) + [HostEvent(Run(BlkidCommand(devicePath)), reply.Printed?),
                                              HostEvent(Run(command.value), r.Ok?)]))
    {
      var format;
      format, reply := GetDiskFormat(devicePath);
      ghost var probed := host.log;
      assert probed[..|old(host.log)| + 1] == probed;
      if format.Err? {
        return Err(FormatCheckError(devicePath, format.msg)), reply;
      }
      if format.value == "" {
        return Ok(false), reply;
      }
      var command := ResizeCommand(format.value, devicePath, deviceMountPath);
      if command.None? {
        return Err(UnsupportedFormatError(format.value, devicePath, deviceMountPath)), reply;
      }
      var err := host.RunForStatus(command.value);
      SnocTwo(old(host.log), probed[|probed| - 1], host.log[|host.log| - 1]);
      if err.Some? {
        return Err(ResizeError(format.value, devicePath, deviceMountPath, err.value)), reply;
      }
      r := Ok(true);
    }
  }
}
