/**
  `rand_string` (src/user/mod.rs): draw random chars, keep the ASCII ones, take
  `size` of them. The random stream is an input: `draws` is the sequence of
  chars the generator produced.
*/
module Keys {

  /** Key length of a default-lifetime login. */
  const DefaultKeyLength: nat := 15
  /** Key length of a login with a caller-chosen lifetime. */
  const TimedKeyLength: nat := 10
  /** Salt length used when a password is changed. */
  const ResetSaltLength: nat := 10
  /** Salt length used when a user is created. */
  const CreateSaltLength: nat := 30

  predicate IsAscii(c: char)
  {
    (c as int) < 128
  }

  /** The ASCII chars of `draws`, in the order they were drawn. */
  function AsciiDraws(draws: seq<char>): (r: seq<char>)
    ensures |r| <= |draws|
    ensures forall i :: 0 <= i < |r| ==> IsAscii(r[i])
  {
    if |draws| == 0 then []
    else if IsAscii(draws[0]) then [draws[0]] + AsciiDraws(draws[1..])
    else AsciiDraws(draws[1..])
  }

  /** The generator produces at least `size` ASCII chars (it runs until it has). */
  predicate Enough(size: nat, draws: seq<char>)
  {
    size <= |AsciiDraws(draws)|
  }

  /** The first `size` ASCII chars of the draws. */
  function RandString(size: nat, draws: seq<char>): (r: string)
    requires Enough(size, draws)
    ensures |r| == size
    ensures forall i :: 0 <= i < |r| ==> IsAscii(r[i])
    decreases |draws|
  {
    if size == 0 then ""
    else if IsAscii(draws[0]) then [draws[0]] + RandString(size - 1, draws[1..])
    else RandString(size, draws[1..])
  }

  /** `RandString` is exactly the prefix of the ASCII subsequence of the draws. */
  lemma {:induction false} RandStringIsAsciiPrefix(size: nat, draws: seq<char>)
    requires Enough(size, draws)
    ensures RandString(size, draws) == AsciiDraws(draws)[..size]
    decreases |draws|
  {
    if size == 0 {
    } else if IsAscii(draws[0]) {
      RandStringIsAsciiPrefix(size - 1, draws[1..]);
      assert AsciiDraws(draws) == [draws[0]] + AsciiDraws(draws[1..]);
    } else {
      RandStringIsAsciiPrefix(size, draws[1..]);
    }
  }
}
