/**
 * The error strings the validators emit, and decoders that read a message
 * back, so that an error list can be stated in terms of the keys and fields
 * it reports.
 */
module Messages {
  import opened Request

  const KeySuffix: string := "' is not a valid key"

  /** `'<key>' is not a valid key` */
  function InvalidKeyMessage(key: string): string
  {
    "'" + key + KeySuffix
  }

  /** `<field> should be a string`, or `age should be a number`. */
  function TypeMessage(f: Field): string
  {
    match f
    case Name => "name should be a string"
    case Breed => "breed should be a string"
    case Description => "description should be a string"
    case Age => "age should be a number"
  }

  /** The key an unknown-key message reports, if the message is one. */
  function KeyOfMessage(m: string): Option<string>
  {
    if |m| >= 1 + |KeySuffix| && m[0] == '\'' && m[|m| - |KeySuffix|..] == KeySuffix
    then Some(m[1..|m| - |KeySuffix|])
    else None
  }

  /** The field a type message reports, if the message is one. */
  function FieldOfMessage(m: string): Option<Field>
  {
    if m == TypeMessage(Name) then Some(Name)
    else if m == TypeMessage(Breed) then Some(Breed)
    else if m == TypeMessage(Description) then Some(Description)
    else if m == TypeMessage(Age) then Some(Age)
    else None
  }

  /** An unknown-key message reports exactly its key, and is no type message. */
  lemma KeyMessageRoundTrip(key: string)
    ensures KeyOfMessage(InvalidKeyMessage(key)) == Some(key)
    ensures FieldOfMessage(InvalidKeyMessage(key)) == None
  {
    var m := InvalidKeyMessage(key);
    assert m[0] == '\'';
    assert m[|m| - |KeySuffix|..] == KeySuffix;
    assert m[1..|m| - |KeySuffix|] == key;
    forall f: Field ensures m != TypeMessage(f) {
      assert TypeMessage(f)[0] != '\'';
    }
  }

  /** Whatever decodes as an unknown-key message is that key's message. */
  lemma KeyOfMessageSound(m: string, key: string)
    requires KeyOfMessage(m) == Some(key)
    ensures m == InvalidKeyMessage(key)
  {
    assert m == m[..1] + m[1..|m| - |KeySuffix|] + m[|m| - |KeySuffix|..];
  }

  /** A type message reports exactly its field, and is no unknown-key message. */
  lemma TypeMessageRoundTrip(f: Field)
    ensures FieldOfMessage(TypeMessage(f)) == Some(f)
    ensures KeyOfMessage(TypeMessage(f)) == None
  {
    assert TypeMessage(f)[0] != '\'';
  }

  /** Distinct fields are reported by distinct messages. */
  lemma TypeMessageInjective(f: Field, g: Field)
    ensures TypeMessage(f) == TypeMessage(g) <==> f == g
  {
    TypeMessageRoundTrip(f);
    TypeMessageRoundTrip(g);
  }
}
