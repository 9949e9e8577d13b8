/**
 The error a crypto calculator raises for a code it has no rate for.  Like the
 exception it models, the error holds nothing but its message, which embeds the
 offending code verbatim after a fixed prefix; `CodeOfMessage` reads the code
 back out, so the message is the whole of what a caller learns.
 */
module CryptoNotSupported {
  import opened RateTables

  const MessagePrefix: string := "Unsupported crypto "

  datatype CryptoNotSupportedException = CryptoNotSupportedException(message: string)

  /** Builds the error for `cryptoCode`: fixed prefix, then the code as given. */
  function NotSupported(cryptoCode: string): (e: CryptoNotSupportedException)
    ensures |e.message| == |MessagePrefix| + |cryptoCode|
    ensures MessagePrefix <= e.message
  {
    CryptoNotSupportedException(MessagePrefix + cryptoCode)
  }

  /** The code an error message was built from, if it was built by `NotSupported`. */
  function CodeOfMessage(message: string): (r: Option<string>)
    ensures r.Some? <==> MessagePrefix <= message
    ensures r.Some? ==> |r.value| == |message| - |MessagePrefix|
  {
    if MessagePrefix <= message then Some(message[|MessagePrefix|..]) else None
  }

  /** The prefix is nineteen characters long, so a message is 19 + |code|. */
  lemma MessageLength(cryptoCode: string)
    ensures |NotSupported(cryptoCode).message| == 19 + |cryptoCode|
  {
  }

  /** Reading a built message back gives the very code it was built from:
      no case folding, trimming or substitution. */
  lemma MessageRoundTrip(cryptoCode: string)
    ensures CodeOfMessage(NotSupported(cryptoCode).message) == Some(cryptoCode)
  {
  }

  /** Every message `CodeOfMessage` accepts is the one built from the code it returns. */
  lemma ParsedMessageRebuilds(message: string)
    requires CodeOfMessage(message).Some?
    ensures NotSupported(CodeOfMessage(message).value).message == message
  {
  }

  /** Distinct codes give distinct messages. */
  lemma MessageInjective(a: string, b: string)
    requires NotSupported(a).message == NotSupported(b).message
    ensures a == b
  {
    MessageRoundTrip(a);
    MessageRoundTrip(b);
  }
}
