/** The style-directive stream shared by the image and table renderers and
    consumed by an encoder.  The Python `formatter` module that defines
    `FormatTag` and `Format` is not part of this model; this is the minimal
    shape the rest of the code relies on. */
module Formatting {

  /** Directive kinds.  `Color` is the kind the ANSI encoder knows; the image
      renderer builds `ForegroundColor` and `BackgroundColor` directives. */
  datatype Kind = Bold | Italic | Color | ForegroundColor | BackgroundColor

  /** A directive: its kind, its payload and whether it opens or closes. */
  datatype Tag = Tag(kind: Kind, data: map<string, string>, open: bool)

  /** `tag.close_tag`: the same kind, closed, without payload. */
  function CloseTag(t: Tag): Tag
  {
    Tag(t.kind, map[], false)
  }

  /** An element of a line handed to an encoder: literal text or a directive. */
  datatype Item = Text(s: string) | Directive(tag: Tag)

  /** The directive opening colour `hex` as foreground or background. */
  function ColorDirective(kind: Kind, hex: string): Tag
  {
    Tag(kind, map["color" := hex], true)
  }

  /** Concatenation of a sequence of sequences, built by appending at the end
      the way the renderers grow their lines. */
  function Flatten<T>(cs: seq<seq<T>>): seq<T>
  {
    if cs == [] then [] else Flatten(cs[..|cs| - 1]) + cs[|cs| - 1]
  }

  lemma FlattenSnoc<T>(cs: seq<seq<T>>, c: seq<T>)
    ensures Flatten(cs + [c]) == Flatten(cs) + c
  {
    assert (cs + [c])[..|cs|] == cs;
  }

  /** One more piece of a sequence of pieces, as a loop appends it. */
  lemma FlattenPrefix<T>(cs: seq<seq<T>>, j: nat)
    requires j < |cs|
    ensures Flatten(cs[..j + 1]) == Flatten(cs[..j]) + cs[j]
  {
    assert cs[..j + 1] == cs[..j] + [cs[j]];
    FlattenSnoc(cs[..j], cs[j]);
  }

  /** When every piece has length k, piece i sits at offset k * i. */
  lemma {:induction false} FlattenUniform<T>(cs: seq<seq<T>>, k: nat)
    requires forall i :: 0 <= i < |cs| ==> |cs[i]| == k
    ensures |Flatten(cs)| == k * |cs|
    ensures forall i :: 0 <= i < |cs| ==> Flatten(cs)[k * i .. k * i + k] == cs[i]
  {
    if cs != [] {
      var n := |cs|;
      var init := cs[..n - 1];
      FlattenUniform(init, k);
      var f := Flatten(init);
      assert Flatten(cs) == f + cs[n - 1];
      OffsetStep(k, n - 1, n);
      forall i | 0 <= i < n
        ensures k * i + k <= k * n
      {
        OffsetStep(k, i, n);
      }
      forall i | 0 <= i < n
        ensures Flatten(cs)[k * i .. k * i + k] == cs[i]
      {
        OffsetStep(k, i, n - 1);
        if i < n - 1 {
          assert (f + cs[n - 1])[k * i .. k * i + k] == f[k * i .. k * i + k];
        }
      }
    }
  }

  /** Offsets of consecutive pieces of length k. */
  lemma OffsetStep(k: nat, i: nat, n: nat)
    ensures k * (i + 1) == k * i + k
    ensures i < n ==> k * i + k <= k * n
    ensures i == n ==> k * i == k * n
  {
    assert k * (i + 1) == k * i + k;
    if i < n {
      var m := n - i - 1;
      assert k * n == k * (i + 1) + k * m;
      assert k * m >= 0;
    }
  }

  /** The total length of the pieces. */
  function LengthSum<T>(cs: seq<seq<T>>): nat
  {
    if cs == [] then 0 else LengthSum(cs[..|cs| - 1]) + |cs[|cs| - 1]|
  }

  /** One more piece adds its length. */
  lemma LengthSumPrefix<T>(cs: seq<seq<T>>, j: nat)
    requires j < |cs|
    ensures LengthSum(cs[..j + 1]) == LengthSum(cs[..j]) + |cs[j]|
  {
    assert cs[..j + 1][..j] == cs[..j];
  }

  lemma {:induction false} FlattenLength<T>(cs: seq<seq<T>>)
    ensures |Flatten(cs)| == LengthSum(cs)
  {
    if cs != [] {
      FlattenLength(cs[..|cs| - 1]);
    }
  }

  /** The pieces before k, flattened, are a prefix of all of them flattened. */
  lemma {:induction false} FlattenIsPrefix<T>(cs: seq<seq<T>>, k: nat)
    requires k <= |cs|
    ensures |Flatten(cs[..k])| <= |Flatten(cs)| && Flatten(cs)[..|Flatten(cs[..k])|] == Flatten(cs[..k])
    decreases |cs| - k
  {
    if k == |cs| {
      assert cs[..k] == cs;
    } else {
      FlattenIsPrefix(cs, k + 1);
      FlattenPrefix(cs, k);
    }
  }

  /** Element i of piece k sits right after the pieces before k. */
  lemma FlattenAt<T>(cs: seq<seq<T>>, k: nat, i: nat)
    requires k < |cs| && i < |cs[k]|
    ensures |Flatten(cs[..k])| + i < |Flatten(cs)|
    ensures Flatten(cs)[|Flatten(cs[..k])| + i] == cs[k][i]
  {
    FlattenIsPrefix(cs, k + 1);
    FlattenPrefix(cs, k);
  }

  /** Piece k, whole, right after the pieces before k. */
  lemma FlattenSlice<T>(cs: seq<seq<T>>, k: nat)
    requires k < |cs|
    ensures |Flatten(cs[..k])| + |cs[k]| <= |Flatten(cs)|
    ensures Flatten(cs)[|Flatten(cs[..k])| .. |Flatten(cs[..k])| + |cs[k]|] == cs[k]
  {
    FlattenIsPrefix(cs, k + 1);
    FlattenPrefix(cs, k);
  }

  /** Every element of the flattening comes from some piece. */
  lemma {:induction false} FlattenMember<T>(cs: seq<seq<T>>, e: T)
    requires e in Flatten(cs)
    ensures exists k, i :: 0 <= k < |cs| && 0 <= i < |cs[k]| && cs[k][i] == e
  {
    var init := cs[..|cs| - 1];
    if e in Flatten(init) {
      FlattenMember(init, e);
      var k, i :| 0 <= k < |init| && 0 <= i < |init[k]| && init[k][i] == e;
      assert cs[k][i] == e;
    } else {
      var last := cs[|cs| - 1];
      assert e in last;
      var i :| 0 <= i < |last| && last[i] == e;
    }
  }

  /** The texts of a sequence, concatenated. */
  function Texts(line: seq<Item>): string
  {
    if line == [] then ""
    else Texts(line[..|line| - 1]) + (match line[|line| - 1] case Text(s) => s case Directive(_) => "")
  }

  /** `lines.append(format_func(line))` for every line, in order. */
  function FormatLines(format: seq<Item> -> string, ls: seq<seq<Item>>): (r: seq<string>)
    ensures |r| == |ls|
  {
    seq(|ls|, k requires 0 <= k < |ls| => format(ls[k]))
  }

  /** One more formatted line, as a loop appends it. */
  lemma FormatLinesPrefix(format: seq<Item> -> string, ls: seq<seq<Item>>, k: nat)
    requires k < |ls|
    ensures FormatLines(format, ls[..k + 1]) == FormatLines(format, ls[..k]) + [format(ls[k])]
  {
  }
}
