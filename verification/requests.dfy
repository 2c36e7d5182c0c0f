/**
 The JSON request fields the two GPU workers read, and the engine outcomes
 they see once synthesis is taken as an input.
 */
module Requests {

  import opened Wrappers

  /** A field of the decoded request object: absent, JSON `null`, or a
      string. */
  datatype Field = Missing | Null | Str(s: string)

  /** `request.get(name, default)`: the default when the key is absent,
      `None` for `null`, the string otherwise. */
  function Lookup(f: Field, default: Option<string>): Option<string> {
    match f
    case Missing => default
    case Null => None
    case Str(s) => Some(s)
  }

  /** A step that either produced a value or raised with a message. */
  datatype Attempt<T> = Done(value: T) | Raises(message: string)

  /** Length of the audio in seconds from the size of a 16-bit mono WAV file
      with a 44-byte header, as an exact quotient. */
  function WavSeconds(size: nat, sampleRate: nat): (seconds: real)
    requires sampleRate > 0
    ensures seconds * (2 * sampleRate) as real == (size - 44) as real
  {
    (size - 44) as real / (2 * sampleRate) as real
  }
}
