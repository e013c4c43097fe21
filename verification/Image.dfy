/** Sparse memory images (elf_to_mem.py): segments overlaid byte by byte into words, written as address
    and data lines, and read back under the rules of $readmemh (section 21.4 of IEEE 1800-2017). */
module Image {
  import opened Words
  import opened Memory
  import opened Hex

  /** A loadable segment: where its bytes go. */
  datatype Segment = Segment(address: nat, data: seq<Octet>)

  type Lanes = s: seq<Octet> | |s| == 4 witness [0, 0, 0, 0]

  /** One line of the image: an address or a data word. */
  datatype Line = At(index: nat) | Data(word: Word)

  // ---- Overlay -----------------------------------------------------------------------------

  function LanesOf(words: map<nat, Lanes>, i: nat): Lanes {
    if i in words then words[i] else [0, 0, 0, 0]
  }

  function PutByte(words: map<nat, Lanes>, k: nat, byte: Octet): map<nat, Lanes> {
    words[k / 4 := LanesOf(words, k / 4)[k % 4 := byte]]
  }

  function PutData(words: map<nat, Lanes>, address: nat, data: seq<Octet>): map<nat, Lanes> {
    if data == [] then words
    else
      var n := |data| - 1;
      PutByte(PutData(words, address, data[..n]), address + n, data[n])
  }

  function Overlay(segments: seq<Segment>): map<nat, Lanes> {
    if segments == [] then map[]
    else
      var last := segments[|segments| - 1];
      PutData(Overlay(segments[..|segments| - 1]), last.address, last.data)
  }

  /** What the segments put at a byte address: a later segment covers an earlier one. */
  function ByteAt(segments: seq<Segment>, k: nat): Option<Octet> {
    if segments == [] then None
    else
      var last := segments[|segments| - 1];
      if last.address <= k < last.address + |last.data| then Some(last.data[k - last.address])
      else ByteAt(segments[..|segments| - 1], k)
  }

  predicate Covered(segments: seq<Segment>, i: nat) {
    ByteAt(segments, 4 * i).Some? || ByteAt(segments, 4 * i + 1).Some? || ByteAt(segments, 4 * i + 2).Some?
    || ByteAt(segments, 4 * i + 3).Some?
  }

  function ZeroFilled(o: Option<Octet>): Octet {
    match o case Some(b) => b case None => 0
  }

  lemma {:induction false} PutDataAt(words: map<nat, Lanes>, address: nat, data: seq<Octet>, k: nat)
    ensures var after := PutData(words, address, data);
      && LanesOf(after, k / 4)[k % 4]
         == (if address <= k < address + |data| then data[k - address] else LanesOf(words, k / 4)[k % 4])
      && (address <= k < address + |data| ==> k / 4 in after)
      && (k / 4 in words ==> k / 4 in after)
      && (k / 4 in after && k / 4 !in words ==>
            |data| > 0 && address < 4 * (k / 4) + 4 && 4 * (k / 4) < address + |data|)
  {
    if data == [] {
    } else {
      var n := |data| - 1;
      PutDataAt(words, address, data[..n], k);
      var before, b := PutData(words, address, data[..n]), address + n;
      if b / 4 == k / 4 { assert b % 4 == k % 4 <==> b == k; }
    }
  }

  /** A word has lines in the image exactly when some byte of it is covered, and its bytes are the
      segments' bytes, zero where none reaches. */
  lemma {:induction false} OverlayAt(segments: seq<Segment>, k: nat)
    ensures LanesOf(Overlay(segments), k / 4)[k % 4] == ZeroFilled(ByteAt(segments, k))
    ensures k / 4 in Overlay(segments) <==> Covered(segments, k / 4)
  {
    if segments != [] {
      var init, last := segments[..|segments| - 1], segments[|segments| - 1];
      OverlayAt(init, k);
      var i := k / 4;
      PutDataAt(Overlay(init), last.address, last.data, k);
      CoveredByLast(segments, i);
    }
  }

  predicate Touches(s: Segment, i: nat) {
    |s.data| > 0 && s.address < 4 * i + 4 && 4 * i < s.address + |s.data|
  }

  lemma CoveredByLast(segments: seq<Segment>, i: nat)
    requires segments != []
    ensures var init, last := segments[..|segments| - 1], segments[|segments| - 1];
      && (Covered(segments, i) <==> Covered(init, i) || Touches(last, i))
      && (i in PutData(Overlay(init), last.address, last.data) <==> i in Overlay(init) || Touches(last, i))
  {
    hide Overlay, PutData;
    var init, last := segments[..|segments| - 1], segments[|segments| - 1];
    var first := if last.address <= 4 * i then 4 * i else last.address;
    PutDataAt(Overlay(init), last.address, last.data, 4 * i);
    if Touches(last, i) {
      assert 4 * i <= first < 4 * i + 4 && first / 4 == i;
      PutDataAt(Overlay(init), last.address, last.data, first);
    }
    LastCovers(segments, 4 * i);
    LastCovers(segments, 4 * i + 1);
    LastCovers(segments, 4 * i + 2);
    LastCovers(segments, 4 * i + 3);
    hide ByteAt;
  }

  lemma LastCovers(segments: seq<Segment>, k: nat)
    requires segments != []
    ensures var init, last := segments[..|segments| - 1], segments[|segments| - 1];
      ByteAt(segments, k).Some? <==> ByteAt(init, k).Some? || last.address <= k < last.address + |last.data|
  {
  }

  // ---- Emission ----------------------------------------------------------------------------

  function WordOf(s: Lanes): Word { Quad(s[0], s[1], s[2], s[3]) }

  predicate Ascending(keys: seq<nat>) {
    forall a, b :: 0 <= a < b < |keys| ==> keys[a] < keys[b]
  }

  /** sorted(words): the keys in ascending order, each once. */
  ghost predicate SortedKeys(words: map<nat, Lanes>, keys: seq<nat>) {
    Ascending(keys) && forall i :: i in keys <==> i in words
  }

  /** The lines for `keys`, given the index the previous data line had. */
  function Lines(words: map<nat, Lanes>, keys: seq<nat>, previous: int): seq<Line>
    requires forall i <- keys :: i in words
  {
    if keys == [] then []
    else
      (if keys[0] != previous + 1 then [At(keys[0])] else []) + [Data(WordOf(words[keys[0]]))]
      + Lines(words, keys[1..], keys[0])
  }

  /** $readmemh: an address line moves the load address, a data word is loaded and advances it. */
  function ReadMem(lines: seq<Line>, next: nat, mem: map<nat, Word>): map<nat, Word> {
    if lines == [] then mem
    else
      match lines[0]
      case At(a) => ReadMem(lines[1..], a, mem)
      case Data(w) => ReadMem(lines[1..], next + 1, mem[next := w])
  }

  lemma {:induction false} ReadConcatenates(a: seq<Line>, b: seq<Line>, next: nat, mem: map<nat, Word>)
    requires |a| <= 2 && (|a| == 2 ==> a[0].At? && a[1].Data?) && (|a| == 1 ==> a[0].Data?)
    ensures |a| == 2 ==> ReadMem(a + b, next, mem) == ReadMem(b, a[0].index + 1, mem[a[0].index := a[1].word])
    ensures |a| == 1 ==> ReadMem(a + b, next, mem) == ReadMem(b, next + 1, mem[next := a[0].word])
  {
    if |a| == 2 {
      assert (a + b)[1..] == [a[1]] + b;
      assert ([a[1]] + b)[1..] == b;
    } else if |a| == 1 {
      assert (a + b)[1..] == b;
    }
  }

  lemma TailKeys(keys: seq<nat>)
    requires keys != [] && Ascending(keys)
    ensures Ascending(keys[1..])
    ensures forall i :: i in keys <==> i == keys[0] || i in keys[1..]
    ensures forall i <- keys[1..] :: i > keys[0]
  {
  }

  lemma PrependAscending(k: nat, rest: seq<nat>)
    requires Ascending(rest) && forall i <- rest :: i > k
    ensures Ascending([k] + rest) && forall i :: i in [k] + rest <==> i == k || i in rest
  {
    forall a, b | 0 <= a < b < |rest| + 1 ensures ([k] + rest)[a] < ([k] + rest)[b] {
      assert ([k] + rest)[b] == rest[b - 1] && rest[b - 1] in rest;
    }
  }

  lemma AppendAscending(keys: seq<nat>, k: nat)
    requires Ascending(keys) && forall i <- keys :: i < k
    ensures Ascending(keys + [k]) && forall i :: i in keys + [k] <==> i == k || i in keys
  {
    forall a, b | 0 <= a < b < |keys| + 1 ensures (keys + [k])[a] < (keys + [k])[b] {
      assert (keys + [k])[a] == keys[a] && keys[a] in keys;
    }
  }

  lemma {:induction false} ReadsBack(words: map<nat, Lanes>, keys: seq<nat>, previous: int, mem: map<nat, Word>)
    requires Ascending(keys) && (forall i <- keys :: i in words && i > previous)
    requires -2 <= previous && (previous < 0 ==> previous == -2)
    ensures var after := ReadMem(Lines(words, keys, previous), if previous < 0 then 0 else previous + 1, mem);
      forall i: nat :: (i in after <==> i in keys || i in mem)
                    && (i in after ==> after[i] == if i in keys then WordOf(words[i]) else mem[i])
  {
    if keys != [] {
      TailKeys(keys);
      hide Ascending, WordOf;
      var k := keys[0];
      var head := (if k != previous + 1 then [At(k)] else []) + [Data(WordOf(words[k]))];
      assert Lines(words, keys, previous) == head + Lines(words, keys[1..], k);
      ReadConcatenates(head, Lines(words, keys[1..], k), if previous < 0 then 0 else previous + 1, mem);
      var loaded := mem[k := WordOf(words[k])];
      assert ReadMem(Lines(words, keys, previous), if previous < 0 then 0 else previous + 1, mem)
          == ReadMem(Lines(words, keys[1..], k), k + 1, loaded);
      ReadsBack(words, keys[1..], k, loaded);
      hide ReadMem, Lines;
      var after := ReadMem(Lines(words, keys[1..], k), k + 1, loaded);
      forall i: nat
        ensures i in after <==> i in keys || i in mem
        ensures i in after ==> after[i] == if i in keys then WordOf(words[i]) else mem[i]
      {
        assert i in keys <==> i == k || i in keys[1..];
        assert i in loaded <==> i == k || i in mem;
      }
    }
  }

  /** The index at which a run of consecutive words begins. */
  predicate RunStart(words: map<nat, Lanes>, i: nat) {
    i in words && (i == 0 || i - 1 !in words)
  }

  /** The address lines, in order. */
  function Addresses(lines: seq<Line>): seq<nat> {
    if lines == [] then []
    else (match lines[0] case At(a) => [a] case Data(_) => []) + Addresses(lines[1..])
  }

  lemma {:induction false} AddressesAreStarts(words: map<nat, Lanes>, keys: seq<nat>, previous: int)
    requires Ascending(keys) && (forall i <- keys :: i in words && i > previous)
    requires -2 <= previous && (previous < 0 ==> previous == -2)
    requires previous >= 0 ==> previous in words
    requires forall i: nat :: i in words && i > previous ==> i in keys
    ensures var starts := Addresses(Lines(words, keys, previous));
      && Ascending(starts)
      && forall i: nat :: i in starts <==> i > previous && RunStart(words, i)
  {
    if keys != [] {
      TailKeys(keys);
      hide Ascending, WordOf;
      var k := keys[0];
      var tail := Lines(words, keys[1..], k);
      AddressesAreStarts(words, keys[1..], k);
      HeadAddresses(if k != previous + 1 then [At(k)] else [], WordOf(words[k]), tail);
      PrependAscending(k, Addresses(tail));
      StartsHere(words, keys, previous);
      var follows := k == previous + 1;
      assert forall i: nat ::
          i > previous && RunStart(words, i) <==> (i > k && RunStart(words, i)) || (i == k && !follows);
    } else {
      assert Ascending([]);
    }
  }

  /** Between the previous data line and the next key there is no word, so a run starts at the key
      unless it follows on. */
  lemma StartsHere(words: map<nat, Lanes>, keys: seq<nat>, previous: int)
    requires keys != [] && Ascending(keys) && (forall i <- keys :: i in words && i > previous) && -2 <= previous
    requires (previous < 0 ==> previous == -2) && (previous >= 0 ==> previous in words)
    requires forall i: nat :: i in words && i > previous ==> i in keys
    ensures keys[0] != previous + 1 <==> RunStart(words, keys[0])
    ensures forall i: nat :: i in words && i > previous ==> i >= keys[0]
  {
    forall i: nat | i in words && i > previous ensures i >= keys[0] {
      assert i in keys;
      var j :| 0 <= j < |keys| && keys[j] == i;
      assert j > 0 ==> keys[0] < keys[j];
    }
    var k := keys[0];
    assert k in keys && k in words && k > previous;
    if k == previous + 1 {
      assert k > 0 ==> k - 1 == previous;
    } else {
      assert k > 0 && k - 1 in words ==> k - 1 >= k;
    }
    hide Ascending;
  }

  lemma HeadAddresses(at: seq<Line>, w: Word, tail: seq<Line>)
    requires at == [] || (|at| == 1 && at[0].At?)
    ensures Addresses(at + [Data(w)] + tail) == (if at == [] then [] else [at[0].index]) + Addresses(tail)
  {
    if at == [] {
      assert ([Data(w)] + tail)[1..] == tail;
      assert at + [Data(w)] + tail == [Data(w)] + tail;
    } else {
      assert (at + [Data(w)] + tail)[1..] == [Data(w)] + tail;
      assert ([Data(w)] + tail)[1..] == tail;
    }
  }

  // ---- The text of the image ---------------------------------------------------------------

  /** A line as it is written. */
  function Written(l: Line): string {
    match l
    case At(index) => "@" + Numeral(index) + "\n"
    case Data(word) => Numeral(word) + "\n"
  }

  function Text(lines: seq<Line>): string {
    if lines == [] then "" else Written(lines[0]) + Text(lines[1..])
  }

  /** The text up to the first line break, and what follows it. */
  function FirstLine(text: string): (r: (string, string))
    ensures text != "" ==> |r.1| < |text|
  {
    if text == "" then ("", "")
    else if text[0] == '\n' then ("", text[1..])
    else
      var (line, rest) := FirstLine(text[1..]);
      ([text[0]] + line, rest)
  }

  function LineOf(s: string): Option<Line> {
    if s == "" then None
    else if s[0] == '@' then
      match Value(s[1..]) case Some(index) => Some(At(index)) case None => None
    else
      match Value(s) case Some(word) => (if word < 0x1_0000_0000 then Some(Data(word)) else None) case None => None
  }

  function Parsed(text: string): Option<seq<Line>>
    decreases |text|
  {
    if text == "" then Some([])
    else
      var (line, rest) := FirstLine(text);
      match (LineOf(line), Parsed(rest))
      case (Some(l), Some(ls)) => Some([l] + ls)
      case _ => None
  }

  lemma {:induction false} BreaksAfter(s: string, rest: string)
    requires forall c <- s :: c != '\n'
    ensures FirstLine(s + "\n" + rest) == (s, rest)
  {
    var all := s + "\n" + rest;
    if s == "" {
      assert all == ['\n'] + rest && all[1..] == rest;
    } else {
      assert all[0] == s[0] && s[0] in s && all[1..] == s[1..] + "\n" + rest;
      assert forall c <- s[1..] :: c in s;
      BreaksAfter(s[1..], rest);
      assert [s[0]] + s[1..] == s;
    }
  }

  lemma WrittenReadsBack(l: Line)
    ensures |Written(l)| > 0
    ensures var s := Written(l)[..|Written(l)| - 1];
      LineOf(s) == Some(l) && Written(l) == s + "\n" && forall c <- s :: c != '\n'
  {
    hide Value, Numeral;
    match l {
      case At(index) =>
        NumeralReadsBack(index);
        var s := "@" + Numeral(index);
        assert Written(l)[..|Written(l)| - 1] == s && s[1..] == Numeral(index);
      case Data(word) =>
        NumeralReadsBack(word);
        var s := Numeral(word);
        assert Written(l)[..|Written(l)| - 1] == s && s[0] in s;
    }
  }

  /** The written lines parse back. */
  lemma {:induction false} TextParses(lines: seq<Line>)
    ensures Parsed(Text(lines)) == Some(lines)
  {
    hide LineOf, Written, FirstLine;
    if lines != [] {
      var l, rest := lines[0], Text(lines[1..]);
      WrittenReadsBack(l);
      var s := Written(l)[..|Written(l)| - 1];
      assert Text(lines) == s + "\n" + rest;
      BreaksAfter(s, rest);
      TextParses(lines[1..]);
      assert [l] + lines[1..] == lines;
    }
  }

  lemma {:induction false} TextExtends(lines: seq<Line>, l: Line)
    ensures Text(lines + [l]) == Text(lines) + Written(l)
  {
    hide Written;
    if lines == [] {
      assert (lines + [l])[1..] == [];
    } else {
      assert (lines + [l])[1..] == lines[1..] + [l];
      TextExtends(lines[1..], l);
    }
  }

  lemma TextOfNone()
    ensures Text([]) == ""
  {
  }

  // ---- The converter -----------------------------------------------------------------------

  /** The smallest key left. */
  method Smallest(left: set<nat>) returns (m: nat)
    requires left != {}
    ensures m in left && forall i :: i in left ==> m <= i
  {
    m :| m in left;
    var rest := left - {m};
    while rest != {}
      invariant m in left && rest <= left && forall i :: i in left && i !in rest ==> m <= i
      decreases |rest|
    {
      var i :| i in rest;
      if i < m { m := i; }
      rest := rest - {i};
    }
  }

  lemma NoneAscending()
    ensures Ascending([])
  {
  }

  /** convert, from the sorted segments to the text of the image: it parses into lines that read back as
      exactly the segments. */
  method Convert(segments: seq<Segment>) returns (text: string)
    ensures Parsed(text).Some? && Represents(Parsed(text).value, segments)
  {
    hide Represents, Loaded, Covered, ReadMem, Parsed, Text;
    var words: map<nat, Lanes> := map[];
    for s := 0 to |segments|
      invariant words == Overlay(segments[..s])
    {
      var address, data := segments[s].address, segments[s].data;
      ghost var before := words;
      for offset := 0 to |data|
        invariant words == PutData(before, address, data[..offset])
      {
        assert data[..offset + 1][..offset] == data[..offset];
        words := PutByte(words, address + offset, data[offset]);
      }
      assert data[..|data|] == data && segments[..s + 1][..s] == segments[..s];
    }
    assert segments[..|segments|] == segments;
    ghost var keys;
    text, keys := Emitted(words);
    ImageRoundTrip(segments, keys);
    TextParses(Lines(words, keys, -2));
  }

  /** The emission loop; `keys` are the sorted indices it walks over. */
  method Emitted(words: map<nat, Lanes>) returns (text: string, ghost keys: seq<nat>)
    ensures SortedKeys(words, keys) && text == Text(Lines(words, keys, -2))
  {
    hide Ascending, WordOf, Written, Text;
    ghost var lines: seq<Line> := [];
    text, keys := "", [];
    TextOfNone();
    assert Ascending(keys) by { NoneAscending(); }
    var left := words.Keys;
    var previous: int := -2;
    while left != {}
      invariant Ascending(keys) && forall i :: i in words <==> i in keys || i in left
      invariant forall i, j :: i in keys && j in left ==> i < j
      invariant previous == if keys == [] then -2 else keys[|keys| - 1]
      invariant lines == Lines(words, keys, -2) && text == Text(lines)
      decreases |left|
    {
      var k := Smallest(left);
      LinesExtend(words, keys, k, -2);
      AppendAscending(keys, k);
      if k != previous + 1 {
        TextExtends(lines, At(k));
        text, lines := text + Written(At(k)), lines + [At(k)];
      }
      TextExtends(lines, Data(WordOf(words[k])));
      text, lines := text + Written(Data(WordOf(words[k]))), lines + [Data(WordOf(words[k]))];
      left, previous := left - {k}, k;
      keys := keys + [k];
    }
  }

  lemma {:induction false} LinesExtend(words: map<nat, Lanes>, keys: seq<nat>, k: nat, previous: int)
    requires k in words && forall i <- keys :: i in words
    ensures Lines(words, keys + [k], previous)
         == Lines(words, keys, previous)
            + (if k != (if keys == [] then previous else keys[|keys| - 1]) + 1 then [At(k)] else [])
            + [Data(WordOf(words[k]))]
  {
    if keys == [] {
      assert (keys + [k])[1..] == [];
    } else {
      assert (keys + [k])[1..] == keys[1..] + [k];
      LinesExtend(words, keys[1..], k, keys[0]);
    }
  }

  /** The word the segments put at index i, zero where no byte reaches. */
  function Loaded(segments: seq<Segment>, i: nat): Word {
    Quad(ZeroFilled(ByteAt(segments, 4 * i)), ZeroFilled(ByteAt(segments, 4 * i + 1)),
         ZeroFilled(ByteAt(segments, 4 * i + 2)), ZeroFilled(ByteAt(segments, 4 * i + 3)))
  }

  /** The lines read back as the segments, overlaid in order on zero bytes: a word is loaded if and only
      if some byte of it is covered, and then with the covering bytes; and there is one address line for
      each maximal run of words, and no other. */
  ghost predicate Represents(lines: seq<Line>, segments: seq<Segment>) {
    var mem := ReadMem(lines, 0, map[]);
    && (forall i: nat :: i in mem <==> Covered(segments, i))
    && (forall i: nat :: i in mem ==> mem[i] == Loaded(segments, i))
    && Ascending(Addresses(lines))
    && (forall i: nat :: i in Addresses(lines) <==> Covered(segments, i) && (i == 0 || !Covered(segments, i - 1)))
  }

  /** The emitted image represents exactly the segments. */
  lemma ImageRoundTrip(segments: seq<Segment>, keys: seq<nat>)
    requires SortedKeys(Overlay(segments), keys)
    ensures Represents(Lines(Overlay(segments), keys, -2), segments)
  {
    hide Overlay, Covered, Loaded, ReadMem, Lines, Addresses, WordOf, Ascending;
    var words := Overlay(segments);
    ReadsBack(words, keys, -2, map[]);
    AddressesAreStarts(words, keys, -2);
    forall i: nat
      ensures i in words <==> Covered(segments, i)
      ensures i in words ==> WordOf(words[i]) == Loaded(segments, i)
    {
      OverlayWord(segments, i);
    }
  }

  lemma OverlayWord(segments: seq<Segment>, i: nat)
    ensures i in Overlay(segments) <==> Covered(segments, i)
    ensures i in Overlay(segments) ==> WordOf(Overlay(segments)[i]) == Loaded(segments, i)
  {
    hide Overlay, Covered, ByteAt, Quad;
    OverlayAt(segments, 4 * i);
    OverlayAt(segments, 4 * i + 1);
    OverlayAt(segments, 4 * i + 2);
    OverlayAt(segments, 4 * i + 3);
  }
}
