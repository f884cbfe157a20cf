/** The two transmitters send the same code: the packed bytes of a word make the counting interrupt
    emit the same 24 long and short pulses as the word makes the table interrupt emit. */
module RfAgreement {
  import opened Bytes
  import opened RfLine
  import C = RfCounter
  import T = RfTable

  /** ZERO is 00, FLOAT is 01, ONE is 11, first bit first. */
  function SymbolBits(s: T.Symbol): (bits: seq<bool>)
    requires s != T.SYNC
    ensures |bits| == 2
  {
    match s
    case ZERO => [false, false]
    case FLOAT => [false, true]
    case ONE => [true, true]
  }

  predicate Address(word: seq<T.Symbol>) {
    forall i | 0 <= i < |word| :: word[i] != T.SYNC
  }

  function WordBits(word: seq<T.Symbol>): (bits: seq<bool>)
    requires Address(word)
    ensures |bits| == 2 * |word|
  {
    if word == [] then [] else SymbolBits(word[0]) + WordBits(word[1..])
  }

  lemma BitsAppend(x: seq<Pulse>, y: seq<Pulse>)
    ensures Bits(x + y) == Bits(x) + Bits(y)
  {
  }

  lemma SymbolClasses(s: T.Symbol)
    requires s != T.SYNC
    ensures Bits(T.SymbolPulses(s)) == SymbolBits(s)
  {
  }

  /** The table transmitter's pulses of a word spell the word's bits. */
  lemma {:induction false} WordClasses(word: seq<T.Symbol>)
    requires Address(word)
    ensures Bits(T.WordPulses(word)) == WordBits(word)
    decreases word
  {
    if word != [] {
      SymbolClasses(word[0]);
      WordClasses(word[1..]);
      BitsAppend(T.SymbolPulses(word[0]), T.WordPulses(word[1..]));
    }
  }

  lemma {:induction false} WordPulsesAppend(x: seq<T.Symbol>, y: seq<T.Symbol>)
    ensures T.WordPulses(x + y) == T.WordPulses(x) + T.WordPulses(y)
    decreases x
  {
    if x == [] {
      assert x + y == y;
    } else {
      assert (x + y)[1..] == x[1..] + y;
      WordPulsesAppend(x[1..], y);
    }
  }

  lemma {:induction false} WordPulsesProper(word: seq<T.Symbol>)
    ensures Proper(T.WordPulses(word))
    decreases word
  {
    if word != [] { WordPulsesProper(word[1..]); }
  }

  /** THE TRANSMITTERS AGREE: for every 12-symbol address closed by SYNC, a receiver timing the whole line of either
      transmitter sees the same 24 classes in each of the eight copies; the counter puts its sync pulse first in a
      copy, the table last. */
  lemma {:induction false} TransmittersAgree(word: seq<T.Symbol>, c: nat)
    requires |word| == 12 && Address(word) && c < 8
    ensures var counter := Pulses(C.Line(Pack(WordBits(word))));
            var table := Pulses(Repeat(Waves(T.WordPulses(word + [T.SYNC])), T.FRAME_LEN));
            && |counter| == 200 && |table| == 200
            && Bits(counter[25 * c + 1..25 * c + 25]) == WordBits(word)
            && Bits(table[25 * c..25 * c + 24]) == WordBits(word)
            && table[25 * c + 24] == Pulse(4, 124)
  {
    var bits := WordBits(word);
    C.FrameReadBack(Pack(bits), c);
    PackBits(bits);
    TableReadBack(word, c);
  }

  lemma {:induction false} TableReadBack(word: seq<T.Symbol>, c: nat)
    requires |word| == 12 && Address(word) && c < 8
    ensures var table := Pulses(Repeat(Waves(T.WordPulses(word + [T.SYNC])), T.FRAME_LEN));
            && |table| == 200
            && Bits(table[25 * c..25 * c + 24]) == WordBits(word)
            && table[25 * c + 24] == Pulse(4, 124)
  {
    var ps := T.WordPulses(word + [T.SYNC]);
    WordFrame(word);
    CopiesReadBack(ps, 8, c);
  }

  /** Any train of 25 pulses is found in each of its copies. */
  lemma {:induction false} CopiesReadBack(ps: seq<Pulse>, n: nat, c: nat)
    requires |ps| == 25 && Proper(ps) && c < n
    ensures var line := Pulses(Repeat(Waves(ps), n));
            |line| == 25 * n && 25 * c + 25 <= 25 * n && line[25 * c..25 * c + 24] == ps[..24] && line[25 * c + 24] == ps[24]
  {
    WavesOfCopies(ps, n);
    CopiesProper(ps, n);
    PulsesOfWaves(Copies(ps, n));
    CopySlice(Copies(ps, n), ps, n, c);
  }

  lemma {:induction false} CopySlice(line: seq<Pulse>, ps: seq<Pulse>, n: nat, c: nat)
    requires |ps| == 25 && c < n && line == Copies(ps, n)
    ensures |line| == 25 * n && 25 * c + 25 <= 25 * n && line[25 * c..25 * c + 24] == ps[..24] && line[25 * c + 24] == ps[24]
  {
    forall k | 0 <= k < 25 ensures 25 * c + k < 25 * n && line[25 * c + k] == ps[k] {
      CopiesAt(ps, n, c, k);
    }
    SliceOf(line, ps, 25 * c);
  }

  lemma {:induction false} SliceOf(line: seq<Pulse>, ps: seq<Pulse>, at: nat)
    requires |ps| == 25 && at + 25 <= |line| && forall k | 0 <= k < 25 :: line[at + k] == ps[k]
    ensures line[at..at + 24] == ps[..24] && line[at + 24] == ps[24]
  {
    forall k | 0 <= k < 24 ensures line[at..at + 24][k] == ps[..24][k] {
      assert line[at + k] == ps[k];
    }
    assert line[at + 24] == ps[24];
  }

  lemma {:induction false} WordFrame(word: seq<T.Symbol>)
    requires |word| == 12 && Address(word)
    ensures var ps := T.WordPulses(word + [T.SYNC]);
            |ps| == 25 && Proper(ps) && Bits(ps[..24]) == WordBits(word) && ps[24] == Pulse(4, 124)
  {
    WordClasses(word);
    WordPulsesAppend(word, [T.SYNC]);
    WordPulsesProper(word + [T.SYNC]);
    SyncAlone();
    assert |T.WordPulses(word)| == |Bits(T.WordPulses(word))| == 24;
    assert T.WordPulses(word + [T.SYNC])[..24] == T.WordPulses(word);
  }

  lemma {:induction false} SyncAlone()
    ensures T.WordPulses([T.SYNC]) == [Pulse(4, 124)]
  {
    assert [T.SYNC][1..] == [];
    assert T.WordPulses([]) == [];
  }

  /** Time scale: corresponding pulses have the same shape, one part in four against three in four;
      the counter's intervals are 7 and 19 where the table's are 4 and 12. */
  lemma {:induction false} PulsesCorrespond(word: seq<T.Symbol>, i: nat)
    requires |word| == 12 && Address(word) && i < 24
    ensures var long := WordBits(word)[i];
            && |T.WordPulses(word)| == 24
            && C.FramePulses(Pack(WordBits(word)))[i + 1] == (if long then Pulse(19, 7) else Pulse(7, 19))
            && T.WordPulses(word)[i] == (if long then Pulse(12, 4) else Pulse(4, 12))
  {
    PackBits(WordBits(word));
    WordClasses(word);
    TwoShapes(word);
    assert |T.WordPulses(word)| == |Bits(T.WordPulses(word))|;
    assert T.WordPulses(word)[i] in {Pulse(12, 4), Pulse(4, 12)};
    assert Bits(T.WordPulses(word))[i] == T.WordPulses(word)[i].Long();
  }

  lemma {:induction false} TwoShapes(word: seq<T.Symbol>)
    requires Address(word)
    ensures forall i | 0 <= i < |T.WordPulses(word)| :: T.WordPulses(word)[i] in {Pulse(12, 4), Pulse(4, 12)}
    decreases word
  {
    if word != [] {
      TwoShapes(word[1..]);
      ShapesOfSymbol(word[0]);
    }
  }

  lemma ShapesOfSymbol(s: T.Symbol)
    requires s != T.SYNC
    ensures forall i | 0 <= i < |T.SymbolPulses(s)| :: T.SymbolPulses(s)[i] in {Pulse(12, 4), Pulse(4, 12)}
  {
  }
}
