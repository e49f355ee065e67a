/** Commands as hiredis formats them: an exact length first, then the bytes. */
module RespFormat {
  import opened Bytes
  import opened Text
  import opened Resp
  import opened RespLaws

  /** The array of bulk strings that a command is sent as. */
  function Command(argv: seq<string>): Reply {
    Array(Arguments(argv))
  }

  function Arguments(argv: seq<string>): (items: seq<Reply>)
    ensures |items| == |argv|
  {
    seq(|argv|, i requires 0 <= i < |argv| => Bulk(argv[i]))
  }

  /** intlen: the number of characters of a decimal number. */
  method IntLen(i: int) returns (len: nat)
    ensures len == |Decimal(i)|
  {
    len := 0;
    var n := i;
    if n < 0 {
      len := 1;
      n := -n;
    }
    ghost var rest := |Digits(n)|;
    ghost var sign := len;
    while n >= 10
      invariant n >= 0
      invariant len + |Digits(n)| == sign + rest
    {
      len := len + 1;
      n := n / 10;
    }
    len := len + 1;
  }

  /** bulklen */
  method BulkLen(text: string) returns (len: nat)
    ensures len == |Encode(Bulk(text))|
  {
    var n := IntLen(|text|);
    len := 1 + n + 2 + |text| + 2;
  }

  lemma {:induction false} EncodeAllAppend(vs: seq<Reply>, v: Reply)
    ensures EncodeAll(vs + [v]) == EncodeAll(vs) + Encode(v)
  {
    hide Encode;
    if vs == [] {
      assert vs + [v] == [v] && [v][1..] == [];
    } else {
      assert (vs + [v])[1..] == vs[1..] + [v];
      EncodeAllAppend(vs[1..], v);
    }
  }

  /** What has been written once `i` arguments are done. */
  function Written(argv: seq<string>, i: nat): string
    requires i <= |argv|
  {
    "*" + (Decimal(|argv|) + CRLF) + EncodeAll(Arguments(argv)[..i])
  }

  lemma WrittenStep(argv: seq<string>, i: nat)
    requires i < |argv|
    ensures Written(argv, i + 1) == Written(argv, i) + Encode(Bulk(argv[i]))
  {
    hide Encode, Decimal, EncodeAll;
    var a := Arguments(argv);
    assert a[..i + 1] == a[..i] + [Bulk(argv[i])];
    EncodeAllAppend(a[..i], Bulk(argv[i]));
  }

  lemma WrittenAll(argv: seq<string>)
    ensures Written(argv, |argv|) == Encode(Command(argv))
  {
    hide Decimal;
    assert Arguments(argv)[..|argv|] == Arguments(argv);
  }

  method CopyInto(cmd: array<char>, pos: nat, text: string) returns (end: nat)
    requires pos + |text| <= cmd.Length
    modifies cmd
    ensures end == pos + |text| && cmd[..end] == old(cmd[..pos]) + text
  {
    forall i | 0 <= i < |text| { cmd[pos + i] := text[i]; }
    end := pos + |text|;
    assert cmd[..end] == cmd[..pos] + cmd[pos..end];
    assert cmd[pos..end] == text;
  }

  /** One argument: its length line, its bytes and a line end. */
  method WriteArgument(cmd: array<char>, pos: nat, text: string) returns (end: nat)
    requires pos + |Encode(Bulk(text))| <= cmd.Length
    modifies cmd
    ensures end == pos + |Encode(Bulk(text))| && cmd[..end] == old(cmd[..pos]) + Encode(Bulk(text))
  {
    hide Decimal;
    var line := "$" + Decimal(|text|) + CRLF;
    assert Encode(Bulk(text)) == line + text + CRLF;
    end := CopyInto(cmd, pos, line);
    end := CopyInto(cmd, end, text);
    end := CopyInto(cmd, end, CRLF);
  }

  /** redisFormatCommandArgv: the length computed in advance is the length written, and the text is the encoded command. */
  method FormatCommandArgv(argv: seq<string>) returns (cmd: array<char>, totlen: nat)
    ensures fresh(cmd) && cmd.Length == totlen + 1
    ensures cmd[..totlen] == Encode(Command(argv)) && cmd[totlen] == '\0'
  {
    hide Encode, Decimal, EncodeAll, Written;
    totlen := FormattedLength(argv);
    cmd := new char[totlen + 1];
    WrittenStart(argv);
    WrittenAll(argv);
    WrittenFits(argv, 0);
    var pos := CopyInto(cmd, 0, "*" + (Decimal(|argv|) + CRLF));
    var j := 0;
    while j < |argv|
      invariant 0 <= j <= |argv| && pos == |Written(argv, j)| <= totlen
      invariant cmd[..pos] == Written(argv, j)
    {
      WrittenStep(argv, j);
      WrittenFits(argv, j + 1);
      pos := WriteArgument(cmd, pos, argv[j]);
      j := j + 1;
    }
    cmd[pos] := '\0';
  }

  /** The length pass of redisFormatCommandArgv. */
  method FormattedLength(argv: seq<string>) returns (totlen: nat)
    ensures totlen == |Encode(Command(argv))|
  {
    hide Encode, Decimal, EncodeAll, Written;
    var n := IntLen(|argv|);
    totlen := 1 + n + 2;
    WrittenStart(argv);
    var j := 0;
    while j < |argv|
      invariant 0 <= j <= |argv| && totlen == |Written(argv, j)|
    {
      WrittenStep(argv, j);
      var len := BulkLen(argv[j]);
      totlen := totlen + len;
      j := j + 1;
    }
    WrittenAll(argv);
  }

  lemma WrittenStart(argv: seq<string>)
    ensures Written(argv, 0) == "*" + (Decimal(|argv|) + CRLF)
  {
    assert Arguments(argv)[..0] == [];
  }

  lemma {:induction false} WrittenFits(argv: seq<string>, j: nat)
    requires j <= |argv|
    ensures |Written(argv, j)| <= |Written(argv, |argv|)|
    decreases |argv| - j
  {
    hide Written, Encode;
    if j < |argv| {
      WrittenStep(argv, j);
      WrittenFits(argv, j + 1);
    }
  }

  /** The reader turns a formatted command back into its arguments. */
  lemma CommandReadsBack(argv: seq<string>)
    ensures Run([ROOT], Encode(Command(argv))) == Outcome([Command(argv)], [ROOT], "", None)
  {
    hide Encode, Run;
    var v := Command(argv);
    assert forall i | 0 <= i < |argv| :: v.items[i] == Bulk(argv[i]);
    DecodeInvertsEncode(v);
  }
}
