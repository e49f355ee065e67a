/**
 The directory of a queue: file names carry a zero-padded segment index, and
 reopening finds the read and write segments by name alone.
 */
module Names {
  import opened Bytes
  import opened Text

  const DB := "db_"
  const RTAG := "rtag_"
  const WTAG := "wtag_"

  /** Names are zero-padded to twelve digits. */
  const LIMIT: nat := 1_000_000_000_000

  function Name(prefix: string, index: nat): string {
    prefix + Pad(index, 12)
  }

  predicate StartsWith(s: string, prefix: string) {
    |prefix| <= |s| && s[..|prefix|] == prefix
  }

  // ---- get_id_by_fname ----

  /** The largest value of a long long. */
  const LLONG_MAX: nat := 0x7FFF_FFFF_FFFF_FFFF

  /** The local buffer into which get_id_by_fname copies the name. */
  const ID_BUFFER: nat := 64

  predicate IsBlank(c: char) {
    c == ' ' || '\t' <= c <= '\r'
  }

  function SkipBlanks(s: string): string {
    if s != "" && IsBlank(s[0]) then SkipBlanks(s[1..]) else s
  }

  /** The value of the leading digits, held at `most`. */
  function Digits(s: string, most: nat): nat {
    var v := Value(LeadingDigits(s));
    if v > most then most else v
  }

  /** atoll on a token, cast to uint64_t: blanks, a sign, and digits up to the range of a long long. */
  function Atoll(s: string): nat {
    var t := SkipBlanks(s);
    if t != "" && t[0] == '-' then (U64 - Digits(t[1..], LLONG_MAX + 1)) % U64
    else if t != "" && t[0] == '+' then Digits(t[1..], LLONG_MAX)
    else Digits(t, LLONG_MAX)
  }

  function LeadingDigits(s: string): (t: string)
    ensures forall i | 0 <= i < |t| :: IsDigit(t[i])
  {
    if s == "" || !IsDigit(s[0]) then "" else [s[0]] + LeadingDigits(s[1..])
  }

  /** The number of the last token of `rest` between underscores, or `ret` if there is none. */
  function IdFrom(rest: string, ret: nat): nat
    decreases |rest|
  {
    if rest == "" then ret
    else if rest[0] == '_' then IdFrom(rest[1..], ret)
    else
      var token := UpTo(rest, '_');
      assert |token| > 0;
      IdFrom(rest[|token|..], Atoll(token))
  }

  /** strncpy into the buffer. */
  function Copied(name: string): string {
    if |name| <= ID_BUFFER then name else name[..ID_BUFFER]
  }

  /** The index that a file name is taken to carry. */
  function IdOf(name: string): nat {
    IdFrom(Copied(name), 0)
  }

  method GetIdByFname(name: string) returns (id: nat)
    ensures id == IdOf(name)
  {
    hide Atoll;
    id := 0;
    var rest := Copied(name);
    while rest != ""
      invariant IdFrom(rest, id) == IdOf(name)
      decreases |rest|
    {
      if rest[0] == '_' {
        rest := rest[1..];
      } else {
        var token := UpTo(rest, '_');
        assert |token| > 0;
        id, rest := Atoll(token), rest[|token|..];
      }
    }
  }

  lemma {:induction false} AllDigitsLead(s: string)
    requires forall i | 0 <= i < |s| :: IsDigit(s[i])
    ensures LeadingDigits(s) == s
  {
    if s != "" {
      AllDigitsLead(s[1..]);
    }
  }

  lemma Pow10Of12()
    ensures Pow10(12) == LIMIT
  {
    assert Pow10(6) == 1_000_000;
  }

  lemma IdOfLastToken(digits: string, ret: nat)
    requires digits != "" && forall i | 0 <= i < |digits| :: IsDigit(digits[i])
    ensures IdFrom(digits, ret) == if Value(digits) > LLONG_MAX then LLONG_MAX else Value(digits)
  {
    hide Value;
    assert digits + "" == digits;
    UpToConcat(digits, '_', "");
    assert digits[|digits|..] == "";
    AllDigitsLead(digits);
  }

  lemma IdAfterToken(token: string, rest: string, ret: nat)
    requires token != "" && '_' !in token
    ensures IdFrom(token + ("_" + rest), ret) == IdFrom(rest, Atoll(token))
  {
    hide Atoll;
    var s := token + ("_" + rest);
    UpToConcat(token, '_', "_" + rest);
    assert UpTo(s, '_') == token && s[0] == token[0];
    assert s[|token|..] == "_" + rest && ("_" + rest)[1..] == rest;
  }

  /** The index is read back from every file name of a queue; the buffer cuts none that is shorter than it. */
  lemma IdOfName(stem: string, index: nat)
    requires stem != "" && '_' !in stem && index < LIMIT
    ensures IdFrom(Name(stem + "_", index), 0) == index
    ensures |stem| + 13 <= ID_BUFFER ==> IdOf(Name(stem + "_", index)) == index
  {
    hide IdFrom, Atoll, Pad, Value;
    var digits := Pad(index, 12);
    assert Name(stem + "_", index) == stem + ("_" + digits);
    IdAfterToken(stem, digits, 0);
    Pow10Of12();
    ValueOfPad(index, 12);
    IdOfLastToken(digits, Atoll(stem));
  }

  /** strcmp on names of one kind compares the indices. */
  lemma NameOrder(prefix: string, i: nat, j: nat)
    requires i < LIMIT && j < LIMIT
    ensures Strcmp(Name(prefix, i), Name(prefix, j)) == Sign(i - j)
  {
    Pow10Of12();
    StrcmpPrefix(prefix, Pad(i, 12), Pad(j, 12));
    PadOrder(i, j, 12);
  }

  // ---- find_handle_file ----

  datatype Entry = Entry(name: string, regular: bool)

  /** The names collected while the directory is read. */
  datatype Handles = Handles(read: Option<string>, write: Option<string>, rtag: Option<string>, wtag: Option<string>)

  function Pick(best: Option<string>, name: string, sign: int): Option<string> {
    if best.None? || Strcmp(name, best.value) == sign then Some(name) else best
  }

  /**
   One directory entry. A second tag file of a kind is left aside: its size is
   asked for by bare name, which does not lie in the working directory.
   */
  function Collect(h: Handles, e: Entry): Handles {
    if !e.regular || StartsWith(e.name, ".") then h
    else if StartsWith(e.name, DB) then h.(read := Pick(h.read, e.name, -1), write := Pick(h.write, e.name, 1))
    else if StartsWith(e.name, RTAG) then (if h.rtag.None? then h.(rtag := Some(e.name)) else h)
    else if StartsWith(e.name, WTAG) then (if h.wtag.None? then h.(wtag := Some(e.name)) else h)
    else h
  }

  function CollectAll(listing: seq<Entry>): Handles {
    if listing == [] then Handles(None, None, None, None)
    else Collect(CollectAll(listing[..|listing| - 1]), listing[|listing| - 1])
  }

  datatype QueueFiles = QueueFiles(readId: nat, writeId: nat)

  /** The indices to reopen with, unless a kind of file is missing or the tags do not match the data files. */
  function Resolve(h: Handles): Option<QueueFiles> {
    if h.read.None? || h.write.None? || h.rtag.None? || h.wtag.None? then None
    else
      var r, w := IdOf(h.read.value), IdOf(h.write.value);
      if IdOf(h.rtag.value) != r || IdOf(h.wtag.value) != w then None
      else Some(QueueFiles(r, w))
  }

  /** What a name buffer holds, once one has been copied there. */
  function Held(n: nat, name: string): Option<string> {
    if n == 0 then None else Some(name)
  }

  method FindHandleFile(listing: seq<Entry>) returns (files: Option<QueueFiles>)
    ensures files == Resolve(CollectAll(listing))
  {
    hide Strcmp, StartsWith, IdOf;
    var read, write, rtag, wtag := "", "", "", "";
    var dbs, rtags, wtags := 0, 0, 0;
    var k := 0;
    while k < |listing|
      invariant 0 <= k <= |listing| && dbs >= 0 && rtags >= 0 && wtags >= 0
      invariant Handles(Held(dbs, read), Held(dbs, write), Held(rtags, rtag), Held(wtags, wtag)) == CollectAll(listing[..k])
    {
      assert listing[..k + 1][..k] == listing[..k];
      var e := listing[k];
      k := k + 1;
      if !e.regular || StartsWith(e.name, ".") { continue; }
      OneKind(e.name);
      if StartsWith(e.name, DB) {
        if dbs == 0 {
          read, write := e.name, e.name;
        } else {
          if Strcmp(e.name, read) < 0 { read := e.name; }
          if Strcmp(e.name, write) > 0 { write := e.name; }
        }
        dbs := dbs + 1;
      }
      if StartsWith(e.name, RTAG) {
        if rtags > 0 { continue; }
        rtag, rtags := e.name, rtags + 1;
      }
      if StartsWith(e.name, WTAG) {
        if wtags > 0 { continue; }
        wtag, wtags := e.name, wtags + 1;
      }
    }
    assert listing[..k] == listing;
    if dbs == 0 || rtags == 0 || wtags == 0 { return None; }
    var rtagId := GetIdByFname(rtag);
    var wtagId := GetIdByFname(wtag);
    var readId := GetIdByFname(read);
    var writeId := GetIdByFname(write);
    if rtagId != readId { return None; }
    if wtagId != writeId { return None; }
    files := Some(QueueFiles(readId, writeId));
  }

  /** A name starts with at most one of the prefixes. */
  lemma OneKind(name: string)
    ensures StartsWith(name, DB) ==> !StartsWith(name, RTAG) && !StartsWith(name, WTAG)
    ensures StartsWith(name, RTAG) ==> !StartsWith(name, WTAG)
  {
    if StartsWith(name, DB) { assert name[..3][0] == 'd'; }
    if StartsWith(name, RTAG) { assert name[..5][0] == 'r'; }
    if StartsWith(name, WTAG) { assert name[..5][0] == 'w'; }
  }

  /** Entries that find_handle_file looks at as files of one kind. */
  predicate Counts(e: Entry, prefix: string) {
    e.regular && !StartsWith(e.name, ".") && StartsWith(e.name, prefix)
  }

  ghost predicate OnlyQueueFiles(listing: seq<Entry>, r: nat, w: nat) {
    forall e | e in listing ::
      && (Counts(e, DB) ==> IsDataFile(e.name, r, w))
      && (Counts(e, RTAG) ==> e.name == Name(RTAG, r))
      && (Counts(e, WTAG) ==> e.name == Name(WTAG, w))
  }

  ghost predicate IsDataFile(name: string, r: nat, w: nat) {
    exists i | r <= i <= w :: name == Name(DB, i)
  }

  /**
   The directory holds data files between `r` and `w`, both included, the read
   tag of `r` and the write tag of `w`, and they are listed in any order among
   any other files.
   */
  ghost predicate Lists(listing: seq<Entry>, r: nat, w: nat) {
    && OnlyQueueFiles(listing, r, w)
    && Entry(Name(DB, r), true) in listing && Entry(Name(DB, w), true) in listing
    && Entry(Name(RTAG, r), true) in listing && Entry(Name(WTAG, w), true) in listing
  }

  /** What has been collected is the lowest and the highest of the data files seen. */
  ghost predicate Collected(listing: seq<Entry>, h: Handles, r: nat, w: nat) {
    && (h.read.Some? ==> IsDataFile(h.read.value, r, w))
    && (h.write.Some? ==> IsDataFile(h.write.value, r, w))
    && (h.rtag.Some? ==> h.rtag.value == Name(RTAG, r))
    && (h.wtag.Some? ==> h.wtag.value == Name(WTAG, w))
    && (Entry(Name(DB, r), true) in listing ==> h.read == Some(Name(DB, r)))
    && (Entry(Name(DB, w), true) in listing ==> h.write == Some(Name(DB, w)))
    && (Entry(Name(RTAG, r), true) in listing ==> h.rtag.Some?)
    && (Entry(Name(WTAG, w), true) in listing ==> h.wtag.Some?)
  }

  lemma NamesDiffer(i: nat)
    ensures StartsWith(Name(DB, i), DB) && !StartsWith(Name(DB, i), ".")
    ensures StartsWith(Name(RTAG, i), RTAG) && !StartsWith(Name(RTAG, i), ".") && !StartsWith(Name(RTAG, i), DB)
    ensures StartsWith(Name(WTAG, i), WTAG) && !StartsWith(Name(WTAG, i), ".")
    ensures !StartsWith(Name(WTAG, i), DB) && !StartsWith(Name(WTAG, i), RTAG)
  {
    assert Name(RTAG, i)[0] == 'r' && Name(WTAG, i)[0] == 'w' && Name(DB, i)[0] == 'd';
  }

  lemma PickLowest(best: Option<string>, name: string, r: nat, w: nat)
    requires r <= w < LIMIT && IsDataFile(name, r, w) && (best.Some? ==> IsDataFile(best.value, r, w))
    ensures var p := Pick(best, name, -1);
            p.Some? && IsDataFile(p.value, r, w) &&
            (best == Some(Name(DB, r)) || name == Name(DB, r) ==> p == Some(Name(DB, r)))
  {
    hide Strcmp, Name;
    var i :| r <= i <= w && name == Name(DB, i);
    if best.Some? {
      var j :| r <= j <= w && best.value == Name(DB, j);
      NameOrder(DB, i, j);
      NameOrder(DB, i, r);
      NameOrder(DB, j, r);
      NameOrder(DB, r, r);
      NameOrder(DB, r, j);
    }
  }

  lemma PickHighest(best: Option<string>, name: string, r: nat, w: nat)
    requires r <= w < LIMIT && IsDataFile(name, r, w) && (best.Some? ==> IsDataFile(best.value, r, w))
    ensures var p := Pick(best, name, 1);
            p.Some? && IsDataFile(p.value, r, w) &&
            (best == Some(Name(DB, w)) || name == Name(DB, w) ==> p == Some(Name(DB, w)))
  {
    hide Strcmp, Name;
    var i :| r <= i <= w && name == Name(DB, i);
    if best.Some? {
      var j :| r <= j <= w && best.value == Name(DB, j);
      NameOrder(DB, i, j);
      NameOrder(DB, i, w);
      NameOrder(DB, j, w);
      NameOrder(DB, w, w);
      NameOrder(DB, w, j);
    }
  }

  lemma {:induction false} CollectAllCollects(listing: seq<Entry>, r: nat, w: nat)
    requires r <= w < LIMIT && OnlyQueueFiles(listing, r, w)
    ensures Collected(listing, CollectAll(listing), r, w)
  {
    hide Pick, Name, IsDataFile, StartsWith;
    if listing != [] {
      var front, e := listing[..|listing| - 1], listing[|listing| - 1];
      CollectAllCollects(front, r, w);
      assert listing == front + [e];
      var h := CollectAll(front);
      NamesDiffer(r);
      NamesDiffer(w);
      assert e in listing;
      if Counts(e, DB) {
        PickLowest(h.read, e.name, r, w);
        PickHighest(h.write, e.name, r, w);
      }
    }
  }

  /** Whatever the order of the listing, the read and write segments are recovered. */
  lemma ReopenFindsSegments(listing: seq<Entry>, r: nat, w: nat)
    requires r <= w < LIMIT && Lists(listing, r, w)
    ensures Resolve(CollectAll(listing)) == Some(QueueFiles(r, w))
  {
    hide CollectAll, IdOf, Name;
    CollectAllCollects(listing, r, w);
    assert "db" + "_" == DB && "rtag" + "_" == RTAG && "wtag" + "_" == WTAG;
    IdOfName("db", r);
    IdOfName("db", w);
    IdOfName("rtag", r);
    IdOfName("wtag", w);
  }
}
