/**
 * The body validators of `POST /dogs` and `PATCH /dogs/:id`.
 *
 * Each validator is given twice: as a specification function that says which
 * errors a body earns, and as a method that builds the error list the way the
 * handler does, by pushing onto a list while walking the keys and entries.
 * The methods are proved to compute the functions; the lemmas state what the
 * functions promise in terms of the keys and fields of the body.
 */
module Validation {
  import opened Request
  import opened Messages

  // ---------------------------------------------------------------------
  // Specification
  // ---------------------------------------------------------------------

  /** The error a single key earns in the unknown-key pass. */
  function KeyError(key: string): seq<string>
  {
    if key in AllowedKeys then [] else [InvalidKeyMessage(key)]
  }

  /** The unknown-key pass over `Object.keys(body)`, in key order. */
  function UnknownKeyErrors(keys: seq<string>): seq<string>
  {
    if keys == [] then [] else KeyError(keys[0]) + UnknownKeyErrors(keys[1..])
  }

  /** The keys outside the recognised four, in order. */
  function UnknownKeys(keys: seq<string>): seq<string>
  {
    if keys == [] then []
    else (if keys[0] in AllowedKeys then [] else [keys[0]]) + UnknownKeys(keys[1..])
  }

  /** The create handler's type check of one field of the body. */
  function FieldTypeError(body: Body, f: Field): seq<string>
  {
    if Conforms(f, Lookup(body, FieldKey(f))) then [] else [TypeMessage(f)]
  }

  /** The create handler's type checks of the four fields, in the order it makes them. */
  function CreateTypeErrors(body: Body): seq<string>
  {
    FieldTypeError(body, Name) + FieldTypeError(body, Breed)
    + FieldTypeError(body, Description) + FieldTypeError(body, Age)
  }

  /**
   * Errors of `POST /dogs`: the unknown-key errors if there are any (the
   * handler answers with those alone), otherwise the type errors of the four
   * fields, where a missing field counts as mistyped.
   */
  function CreateErrors(body: Body): seq<string>
  {
    var unknown := UnknownKeyErrors(Keys(body));
    if unknown != [] then unknown else CreateTypeErrors(body)
  }

  /** The update handler's type check of one entry; an unknown key earns none here. */
  function EntryTypeErrors(e: Entry): seq<string>
  {
    match FieldOf(e.key)
    case None => []
    case Some(f) => if Conforms(f, Some(e.value)) then [] else [TypeMessage(f)]
  }

  /** The type pass over `Object.entries(body)`, in entry order. */
  function UpdateTypeErrors(body: Body): seq<string>
  {
    if body == [] then [] else EntryTypeErrors(body[0]) + UpdateTypeErrors(body[1..])
  }

  /**
   * Errors of `PATCH /dogs/:id`: all unknown-key errors followed by the type
   * errors of the recognised entries present; no pass is skipped.
   */
  function UpdateErrors(body: Body): seq<string>
  {
    UnknownKeyErrors(Keys(body)) + UpdateTypeErrors(body)
  }

  // ---------------------------------------------------------------------
  // Reference views used to state the properties
  // ---------------------------------------------------------------------

  predicate AllKeysAllowed(body: Body)
  {
    forall i :: 0 <= i < |body| ==> body[i].key in AllowedKeys
  }

  /** The field a body supplies for `f` passes its `typeof` test. */
  predicate FieldConforms(body: Body, f: Field)
  {
    Conforms(f, Lookup(body, FieldKey(f)))
  }

  /** An entry a patch may carry: a recognised key with a value of its type. */
  predicate EntryAcceptable(e: Entry)
  {
    FieldOf(e.key).Some? && Conforms(FieldOf(e.key).value, Some(e.value))
  }

  /** The recognised fields whose entry has the wrong type, in entry order. */
  function MistypedFields(body: Body): seq<Field>
  {
    if body == [] then []
    else
      (match FieldOf(body[0].key)
       case None => []
       case Some(f) => if Conforms(f, Some(body[0].value)) then [] else [f])
      + MistypedFields(body[1..])
  }

  /** The keys reported by the unknown-key messages of a list, in order. */
  function DecodedKeys(msgs: seq<string>): seq<string>
  {
    if msgs == [] then []
    else
      (match KeyOfMessage(msgs[0]) case Some(k) => [k] case None => [])
      + DecodedKeys(msgs[1..])
  }

  /** The fields reported by the type messages of a list, in order. */
  function DecodedFields(msgs: seq<string>): seq<Field>
  {
    if msgs == [] then []
    else
      (match FieldOfMessage(msgs[0]) case Some(f) => [f] case None => [])
      + DecodedFields(msgs[1..])
  }

  /** The unknown-key message of each key, in order. */
  function KeyMessages(ks: seq<string>): seq<string>
  {
    seq(|ks|, i requires 0 <= i < |ks| => InvalidKeyMessage(ks[i]))
  }

  /** The type message of each field, in order. */
  function TypeMessages(fs: seq<Field>): seq<string>
  {
    seq(|fs|, i requires 0 <= i < |fs| => TypeMessage(fs[i]))
  }

  /** The four type messages in the order the create handler may emit them. */
  const AllTypeMessages: seq<string> :=
    ["name should be a string", "breed should be a string",
     "description should be a string", "age should be a number"]

  /** `a` is `b` with some elements left out. */
  predicate IsSubsequence(a: seq<string>, b: seq<string>)
    decreases |b|
  {
    if b == [] then a == []
    else (a != [] && a[0] == b[0] && IsSubsequence(a[1..], b[1..])) || IsSubsequence(a, b[1..])
  }

  // ---------------------------------------------------------------------
  // Lemmas about the unknown-key pass
  // ---------------------------------------------------------------------

  lemma {:induction false} UnknownKeyErrorsAppend(keys: seq<string>, more: seq<string>)
    ensures UnknownKeyErrors(keys + more) == UnknownKeyErrors(keys) + UnknownKeyErrors(more)
  {
    if keys == [] {
      assert keys + more == more;
    } else {
      assert (keys + more)[1..] == keys[1..] + more;
      UnknownKeyErrorsAppend(keys[1..], more);
    }
  }

  /** The unknown-key pass is silent exactly when every key is recognised. */
  lemma {:induction false} NoUnknownKeyErrorsIff(keys: seq<string>)
    ensures UnknownKeyErrors(keys) == [] <==> forall i :: 0 <= i < |keys| ==> keys[i] in AllowedKeys
  {
    if keys != [] {
      NoUnknownKeyErrorsIff(keys[1..]);
      if forall i :: 0 <= i < |keys[1..]| ==> keys[1..][i] in AllowedKeys {
        forall i | 0 < i < |keys| ensures keys[i] in AllowedKeys {
          assert keys[i] == keys[1..][i - 1];
        }
      }
    }
  }

  /**
   * The unknown-key pass emits one message per unknown key, in key order, and
   * every message it emits is an unknown-key message: it reports exactly the
   * unknown keys and never a field.
   */
  lemma {:induction false} UnknownKeyErrorsReportUnknownKeys(keys: seq<string>)
    ensures DecodedKeys(UnknownKeyErrors(keys)) == UnknownKeys(keys)
    ensures DecodedFields(UnknownKeyErrors(keys)) == []
    ensures |UnknownKeyErrors(keys)| == |UnknownKeys(keys)|
    ensures forall m :: m in UnknownKeyErrors(keys) ==> KeyOfMessage(m).Some?
  {
    if keys != [] {
      var errs := UnknownKeyErrors(keys);
      UnknownKeyErrorsReportUnknownKeys(keys[1..]);
      if keys[0] !in AllowedKeys {
        KeyMessageRoundTrip(keys[0]);
        assert errs[1..] == UnknownKeyErrors(keys[1..]);
      } else {
        assert errs == UnknownKeyErrors(keys[1..]);
      }
    }
  }

  lemma {:induction false} DecodedKeysAppend(a: seq<string>, b: seq<string>)
    ensures DecodedKeys(a + b) == DecodedKeys(a) + DecodedKeys(b)
  {
    if a == [] {
      assert a + b == b;
    } else {
      assert (a + b)[1..] == a[1..] + b;
      DecodedKeysAppend(a[1..], b);
    }
  }

  lemma {:induction false} DecodedFieldsAppend(a: seq<string>, b: seq<string>)
    ensures DecodedFields(a + b) == DecodedFields(a) + DecodedFields(b)
  {
    if a == [] {
      assert a + b == b;
    } else {
      assert (a + b)[1..] == a[1..] + b;
      DecodedFieldsAppend(a[1..], b);
    }
  }

  lemma DecodedAppend(a: seq<string>, b: seq<string>)
    ensures DecodedKeys(a + b) == DecodedKeys(a) + DecodedKeys(b)
    ensures DecodedFields(a + b) == DecodedFields(a) + DecodedFields(b)
  {
    DecodedKeysAppend(a, b);
    DecodedFieldsAppend(a, b);
  }

  lemma KeyMessagesCons(k: string, ks: seq<string>)
    ensures KeyMessages([k] + ks) == [InvalidKeyMessage(k)] + KeyMessages(ks)
  {
    assert |KeyMessages([k] + ks)| == |[InvalidKeyMessage(k)] + KeyMessages(ks)|;
    forall i | 0 <= i < 1 + |ks|
      ensures KeyMessages([k] + ks)[i] == ([InvalidKeyMessage(k)] + KeyMessages(ks))[i]
    {
      if i > 0 {
        assert ([k] + ks)[i] == ks[i - 1];
      }
    }
  }

  /** The unknown-key pass emits exactly the message of each unknown key, in key order. */
  lemma {:induction false} UnknownKeyErrorsAreKeyMessages(keys: seq<string>)
    ensures UnknownKeyErrors(keys) == KeyMessages(UnknownKeys(keys))
  {
    if keys != [] {
      UnknownKeyErrorsAreKeyMessages(keys[1..]);
      if keys[0] !in AllowedKeys {
        KeyMessagesCons(keys[0], UnknownKeys(keys[1..]));
      }
    }
  }

  lemma KeysOfAllowedBody(body: Body)
    ensures AllKeysAllowed(body) <==> UnknownKeyErrors(Keys(body)) == []
  {
    NoUnknownKeyErrorsIff(Keys(body));
  }

  // ---------------------------------------------------------------------
  // Lemmas about the create validator
  // ---------------------------------------------------------------------

  /** Each field's check emits that field's message or nothing. */
  lemma FieldTypeErrorShape(body: Body, f: Field)
    ensures FieldTypeError(body, f) == [] <==> FieldConforms(body, f)
    ensures FieldTypeError(body, f) == [] || FieldTypeError(body, f) == [TypeMessage(f)]
  {
  }

  /** A field's message is among the create type errors exactly when that field fails its test. */
  lemma CreateTypeErrorsMember(body: Body, f: Field)
    ensures TypeMessage(f) in CreateTypeErrors(body) <==> !FieldConforms(body, f)
  {
    forall g: Field ensures TypeMessage(f) in FieldTypeError(body, g) <==> f == g && !FieldConforms(body, g) {
      FieldTypeErrorShape(body, g);
      TypeMessageInjective(f, g);
    }
  }

  /** Keeping or dropping a new last element `m` keeps a sublist a sublist. */
  lemma {:induction false} SubsequenceAppend(x: seq<string>, ys: seq<string>, opt: seq<string>, m: string)
    requires IsSubsequence(x, ys)
    requires opt == [] || opt == [m]
    ensures IsSubsequence(x + opt, ys + [m])
    decreases |ys|
  {
    if ys == [] {
      assert x + opt == opt;
      if opt != [] {
        assert opt[1..] == [];
      }
    } else if x != [] && x[0] == ys[0] && IsSubsequence(x[1..], ys[1..]) {
      SubsequenceAppend(x[1..], ys[1..], opt, m);
      assert (x + opt)[1..] == x[1..] + opt;
      assert (ys + [m])[1..] == ys[1..] + [m];
    } else {
      SubsequenceAppend(x, ys[1..], opt, m);
      assert (ys + [m])[1..] == ys[1..] + [m];
    }
  }

  /** Four optional messages, concatenated, are a sublist of the four. */
  lemma OptionalMessagesInOrder(n: seq<string>, b: seq<string>, d: seq<string>, a: seq<string>,
                                mn: string, mb: string, md: string, ma: string)
    requires n == [] || n == [mn]
    requires b == [] || b == [mb]
    requires d == [] || d == [md]
    requires a == [] || a == [ma]
    ensures IsSubsequence(n + b + d + a, [mn, mb, md, ma])
  {
    var none: seq<string> := [];
    assert IsSubsequence(none, none);
    SubsequenceAppend(none, none, n, mn);
    assert none + n == n && none + [mn] == [mn];
    SubsequenceAppend(n, [mn], b, mb);
    assert [mn] + [mb] == [mn, mb];
    SubsequenceAppend(n + b, [mn, mb], d, md);
    assert [mn, mb] + [md] == [mn, mb, md];
    SubsequenceAppend(n + b + d, [mn, mb, md], a, ma);
    assert [mn, mb, md] + [ma] == [mn, mb, md, ma];
  }

  /** The create type errors are the four messages with those of conforming fields left out. */
  lemma CreateTypeErrorsInOrder(body: Body)
    ensures IsSubsequence(CreateTypeErrors(body), AllTypeMessages)
  {
    FieldTypeErrorShape(body, Name);
    FieldTypeErrorShape(body, Breed);
    FieldTypeErrorShape(body, Description);
    FieldTypeErrorShape(body, Age);
    OptionalMessagesInOrder(FieldTypeError(body, Name), FieldTypeError(body, Breed),
                            FieldTypeError(body, Description), FieldTypeError(body, Age),
                            TypeMessage(Name), TypeMessage(Breed), TypeMessage(Description), TypeMessage(Age));
  }

  /**
   * A body with a key outside the recognised four is answered with its
   * unknown-key errors only: one per unknown key, in key order, and no type
   * message.
   */
  lemma CreateRejectsUnknownKeysAlone(body: Body)
    requires !AllKeysAllowed(body)
    ensures CreateErrors(body) == KeyMessages(UnknownKeys(Keys(body)))
    ensures CreateErrors(body) != []
    ensures DecodedKeys(CreateErrors(body)) == UnknownKeys(Keys(body))
    ensures |CreateErrors(body)| == |UnknownKeys(Keys(body))|
    ensures forall f :: TypeMessage(f) !in CreateErrors(body)
  {
    KeysOfAllowedBody(body);
    UnknownKeyErrorsReportUnknownKeys(Keys(body));
    UnknownKeyErrorsAreKeyMessages(Keys(body));
    forall f ensures TypeMessage(f) !in CreateErrors(body) {
      TypeMessageRoundTrip(f);
    }
  }

  /**
   * A body whose keys are all recognised is answered with the type messages
   * of exactly the fields that are missing or mistyped, in the order name,
   * breed, description, age.
   */
  lemma CreateTypeErrorsExact(body: Body)
    requires AllKeysAllowed(body)
    ensures forall f :: TypeMessage(f) in CreateErrors(body) <==> !FieldConforms(body, f)
    ensures IsSubsequence(CreateErrors(body), AllTypeMessages)
  {
    KeysOfAllowedBody(body);
    forall f ensures TypeMessage(f) in CreateErrors(body) <==> !FieldConforms(body, f) {
      CreateTypeErrorsMember(body, f);
    }
    CreateTypeErrorsInOrder(body);
  }

  /**
   * `POST /dogs` validation passes exactly when every key is recognised and
   * all four fields are present with their types.
   */
  lemma CreateAcceptsIff(body: Body)
    ensures CreateErrors(body) == [] <==> AllKeysAllowed(body) && forall f :: FieldConforms(body, f)
  {
    KeysOfAllowedBody(body);
    forall f ensures TypeMessage(f) in CreateTypeErrors(body) <==> !FieldConforms(body, f) {
      CreateTypeErrorsMember(body, f);
    }
  }

  /** A body of recognised keys whose four fields pass their tests passes create validation. */
  lemma CreateAcceptsFourFields(body: Body)
    requires AllKeysAllowed(body)
    requires FieldConforms(body, Name) && FieldConforms(body, Breed)
    requires FieldConforms(body, Description) && FieldConforms(body, Age)
    ensures CreateErrors(body) == []
  {
    KeysOfAllowedBody(body);
  }

  /**
   * A body that passes create validation has exactly the four recognised keys
   * (an object's keys being distinct).
   */
  lemma CreateAcceptedBodyIsExact(body: Body)
    requires DistinctKeys(body) && CreateErrors(body) == []
    ensures KeySet(body) == {"name", "breed", "description", "age"}
    ensures |body| == 4
  {
    CreateAcceptsIff(body);
    KeySetOfAllowedBody(body);
    assert FieldConforms(body, Name) && FieldConforms(body, Breed);
    assert FieldConforms(body, Description) && FieldConforms(body, Age);
    AllFourKeys(KeySet(body));
    DistinctKeysCount(body);
  }

  /** A set of recognised keys that holds all four is exactly the four. */
  lemma AllFourKeys(ks: set<string>)
    requires forall k :: k in ks ==> k in AllowedKeys
    requires "name" in ks && "breed" in ks && "description" in ks && "age" in ks
    ensures ks == {"name", "breed", "description", "age"}
    ensures |ks| == 4
  {
    var two := {"name", "breed"};
    assert |"name"| != |"breed"|;
    assert |two| == 2;
    assert |"description"| == 11;
    assert |two + {"description"}| == 3;
    assert |"age"| == 3;
    assert two + {"description"} + {"age"} == {"name", "breed", "description", "age"};
  }

  lemma {:induction false} KeySetOfAllowedBody(body: Body)
    requires AllKeysAllowed(body)
    ensures forall k :: k in KeySet(body) ==> k in AllowedKeys
  {
    if body != [] {
      assert AllKeysAllowed(body[1..]) by {
        forall i | 0 <= i < |body[1..]| ensures body[1..][i].key in AllowedKeys {
          assert body[1..][i] == body[i + 1];
        }
      }
      KeySetOfAllowedBody(body[1..]);
    }
  }

  // ---------------------------------------------------------------------
  // Lemmas about the update validator
  // ---------------------------------------------------------------------

  lemma {:induction false} UpdateTypeErrorsAppend(body: Body, more: Body)
    ensures UpdateTypeErrors(body + more) == UpdateTypeErrors(body) + UpdateTypeErrors(more)
  {
    if body == [] {
      assert body + more == more;
    } else {
      assert (body + more)[1..] == body[1..] + more;
      UpdateTypeErrorsAppend(body[1..], more);
    }
  }

  lemma TypeMessagesCons(f: Field, fs: seq<Field>)
    ensures TypeMessages([f] + fs) == [TypeMessage(f)] + TypeMessages(fs)
  {
    assert |TypeMessages([f] + fs)| == |[TypeMessage(f)] + TypeMessages(fs)|;
    forall i | 0 <= i < 1 + |fs|
      ensures TypeMessages([f] + fs)[i] == ([TypeMessage(f)] + TypeMessages(fs))[i]
    {
      if i > 0 {
        assert ([f] + fs)[i] == fs[i - 1];
      }
    }
  }

  /** The type pass emits exactly the message of each mistyped recognised entry, in entry order. */
  lemma {:induction false} UpdateTypeErrorsAreTypeMessages(body: Body)
    ensures UpdateTypeErrors(body) == TypeMessages(MistypedFields(body))
  {
    if body != [] {
      UpdateTypeErrorsAreTypeMessages(body[1..]);
      var head := EntryTypeErrors(body[0]);
      if head != [] {
        TypeMessagesCons(FieldOf(body[0].key).value, MistypedFields(body[1..]));
      }
    }
  }

  /** The type pass reports exactly the mistyped recognised entries, in entry order. */
  lemma {:induction false} UpdateTypeErrorsReportMistyped(body: Body)
    ensures DecodedFields(UpdateTypeErrors(body)) == MistypedFields(body)
    ensures DecodedKeys(UpdateTypeErrors(body)) == []
    ensures forall m :: m in UpdateTypeErrors(body) ==> FieldOfMessage(m).Some?
  {
    if body != [] {
      UpdateTypeErrorsReportMistyped(body[1..]);
      var head := EntryTypeErrors(body[0]);
      DecodedAppend(head, UpdateTypeErrors(body[1..]));
      if head != [] {
        TypeMessageRoundTrip(FieldOf(body[0].key).value);
      }
    }
  }

  /**
   * The update error list is laid out as the unknown-key messages, one per
   * unknown key in key order, followed by the type messages, one per mistyped
   * recognised entry in entry order.
   */
  lemma UpdateErrorsLayout(body: Body)
    ensures UpdateErrors(body) == KeyMessages(UnknownKeys(Keys(body))) + TypeMessages(MistypedFields(body))
    ensures DecodedKeys(UpdateErrors(body)) == UnknownKeys(Keys(body))
    ensures DecodedFields(UpdateErrors(body)) == MistypedFields(body)
    ensures |UpdateErrors(body)| == |UnknownKeys(Keys(body))| + |MistypedFields(body)|
    ensures forall i :: 0 <= i < |UnknownKeys(Keys(body))| ==> KeyOfMessage(UpdateErrors(body)[i]).Some?
    ensures forall i :: |UnknownKeys(Keys(body))| <= i < |UpdateErrors(body)| ==> FieldOfMessage(UpdateErrors(body)[i]).Some?
  {
    var keyErrs, typeErrs := UnknownKeyErrors(Keys(body)), UpdateTypeErrors(body);
    UnknownKeyErrorsReportUnknownKeys(Keys(body));
    UpdateTypeErrorsReportMistyped(body);
    UnknownKeyErrorsAreKeyMessages(Keys(body));
    UpdateTypeErrorsAreTypeMessages(body);
    DecodedAppend(keyErrs, typeErrs);
    DecodedFieldsLength(typeErrs);
    ConcatenationLayout(keyErrs, typeErrs);
  }

  /** Messages that decode one way, followed by messages that decode the other. */
  lemma ConcatenationLayout(keyErrs: seq<string>, typeErrs: seq<string>)
    requires forall m :: m in keyErrs ==> KeyOfMessage(m).Some?
    requires forall m :: m in typeErrs ==> FieldOfMessage(m).Some?
    ensures forall i :: 0 <= i < |keyErrs| ==> KeyOfMessage((keyErrs + typeErrs)[i]).Some?
    ensures forall i :: |keyErrs| <= i < |keyErrs + typeErrs| ==> FieldOfMessage((keyErrs + typeErrs)[i]).Some?
  {
    var errs := keyErrs + typeErrs;
    forall i | 0 <= i < |keyErrs| ensures KeyOfMessage(errs[i]).Some? {
      assert errs[i] == keyErrs[i];
    }
    forall i | |keyErrs| <= i < |errs| ensures FieldOfMessage(errs[i]).Some? {
      assert errs[i] == typeErrs[i - |keyErrs|];
    }
  }

  lemma {:induction false} DecodedFieldsLength(msgs: seq<string>)
    requires forall m :: m in msgs ==> FieldOfMessage(m).Some?
    ensures |DecodedFields(msgs)| == |msgs|
  {
    if msgs != [] {
      DecodedFieldsLength(msgs[1..]);
    }
  }

  /**
   * With distinct keys, a field's type message is in the update error list
   * exactly when the body supplies that field with the wrong type; an absent
   * field earns nothing.
   */
  lemma UpdateTypeMessageIff(body: Body, f: Field)
    requires DistinctKeys(body)
    ensures TypeMessage(f) in UpdateErrors(body) <==> FieldKey(f) in KeySet(body) && !FieldConforms(body, f)
  {
    UpdateErrorsLayout(body);
    UnknownKeyErrorsReportUnknownKeys(Keys(body));
    TypeMessageRoundTrip(f);
    MistypedFieldsFromLookup(body, f);
    DecodedFieldsMember(UpdateErrors(body), f);
  }

  lemma {:induction false} DecodedFieldsMember(msgs: seq<string>, f: Field)
    ensures f in DecodedFields(msgs) <==> TypeMessage(f) in msgs
  {
    TypeMessageRoundTrip(f);
    if msgs != [] {
      DecodedFieldsMember(msgs[1..], f);
      if FieldOfMessage(msgs[0]) == Some(f) {
        assert msgs[0] == TypeMessage(f);
      }
    }
  }

  lemma {:induction false} MistypedFieldsFromLookup(body: Body, f: Field)
    requires DistinctKeys(body)
    ensures f in MistypedFields(body) <==> FieldKey(f) in KeySet(body) && !FieldConforms(body, f)
  {
    if body != [] {
      assert DistinctKeys(body[1..]) by {
        forall i, j | 0 <= i < j < |body[1..]| ensures body[1..][i].key != body[1..][j].key {
          assert body[1..][i] == body[i + 1] && body[1..][j] == body[j + 1];
        }
      }
      MistypedFieldsFromLookup(body[1..], f);
      FieldKeyRoundTrip(f);
    }
  }

  /** A patch passes validation exactly when every entry is recognised and well typed; the empty patch passes. */
  lemma {:induction false} UpdateAcceptsIff(body: Body)
    ensures UpdateErrors(body) == [] <==> forall i :: 0 <= i < |body| ==> EntryAcceptable(body[i])
  {
    KeysOfAllowedBody(body);
    if body != [] {
      UpdateAcceptsIff(body[1..]);
      KeysOfAllowedBody(body[1..]);
      assert Keys(body[1..]) == Keys(body)[1..];
      if forall i :: 0 <= i < |body[1..]| ==> EntryAcceptable(body[1..][i]) {
        forall i | 0 < i < |body| ensures EntryAcceptable(body[i]) {
          assert body[i] == body[1..][i - 1];
        }
      }
    }
  }

  /** Any body `POST /dogs` accepts is also a patch `PATCH /dogs/:id` accepts. */
  lemma CreateAcceptedImpliesUpdateAccepted(body: Body)
    requires DistinctKeys(body) && CreateErrors(body) == []
    ensures UpdateErrors(body) == []
  {
    CreateAcceptsIff(body);
    UpdateAcceptsIff(body);
    forall i | 0 <= i < |body| ensures EntryAcceptable(body[i]) {
      var f := FieldOf(body[i].key).value;
      assert FieldConforms(body, f);
      LookupFindsEntry(body, i);
    }
  }

  /**
   * Conversely, an accepted patch that supplies all four fields passes
   * create validation (an object's keys being distinct).
   */
  lemma UpdateAcceptedCompleteImpliesCreateAccepted(body: Body)
    requires DistinctKeys(body) && UpdateErrors(body) == []
    requires forall f :: FieldKey(f) in KeySet(body)
    ensures CreateErrors(body) == []
  {
    CreateAcceptsIff(body);
    UpdateAcceptsIff(body);
    KeySetMembers(body);
    forall f ensures FieldConforms(body, f) {
      var i :| 0 <= i < |body| && body[i].key == FieldKey(f);
      LookupFindsEntry(body, i);
      FieldKeyRoundTrip(f);
      assert EntryAcceptable(body[i]);
    }
  }

  /**
   * The two validators differ: create stops at an unknown key, update goes on
   * to the type pass, so one patch can earn both kinds of message.
   */
  lemma UpdateDoesNotShortCircuit(unknown: string, v: Value, age: Value)
    requires unknown !in AllowedKeys && !age.JNumber?
    ensures var body := [Entry(unknown, v), Entry("age", age)];
      && CreateErrors(body) == [InvalidKeyMessage(unknown)]
      && UpdateErrors(body) == [InvalidKeyMessage(unknown), "age should be a number"]
  {
    var body := [Entry(unknown, v), Entry("age", age)];
    assert Keys(body) == [unknown, "age"];
    assert Keys(body)[1..] == ["age"];
    assert UnknownKeyErrors(["age"]) == [];
    assert UnknownKeyErrors(Keys(body)) == [InvalidKeyMessage(unknown)];
    assert body[1..] == [Entry("age", age)];
    assert UpdateTypeErrors(body[1..]) == ["age should be a number"];
  }

  // ---------------------------------------------------------------------
  // The validators as the handlers run them
  // ---------------------------------------------------------------------

  /**
   * The unknown-key pass both handlers run: walk `Object.keys(body)` and push
   * an error for every key that is not recognised.
   */
  method CollectUnknownKeyErrors(keys: seq<string>) returns (errors: seq<string>)
    ensures errors == UnknownKeyErrors(keys)
  {
    errors := [];
    var i := 0;
    while i < |keys|
      invariant 0 <= i <= |keys|
      invariant errors == UnknownKeyErrors(keys[..i])
    {
      var key := keys[i];
      if key !in AllowedKeys {
        errors := errors + [InvalidKeyMessage(key)];
      }
      UnknownKeyErrorsAppend(keys[..i], [key]);
      assert keys[..i + 1] == keys[..i] + [key];
      i := i + 1;
    }
    assert keys[..i] == keys;
  }

  /**
   * The `POST /dogs` checks: the unknown-key pass, a stop if it found
   * anything, then the four fields in turn.
   */
  method ValidateCreate(body: Body) returns (errors: seq<string>)
    ensures errors == CreateErrors(body)
  {
    var name, breed, description, age :=
      Lookup(body, "name"), Lookup(body, "breed"), Lookup(body, "description"), Lookup(body, "age");
    errors := CollectUnknownKeyErrors(Keys(body));
    if |errors| > 0 {
      return;
    }
    if !(name.Some? && name.value.JString?) {
      errors := errors + ["name should be a string"];
    }
    assert errors == FieldTypeError(body, Name);
    if !(breed.Some? && breed.value.JString?) {
      errors := errors + ["breed should be a string"];
    }
    assert errors == FieldTypeError(body, Name) + FieldTypeError(body, Breed);
    if !(description.Some? && description.value.JString?) {
      errors := errors + ["description should be a string"];
    }
    assert errors == FieldTypeError(body, Name) + FieldTypeError(body, Breed) + FieldTypeError(body, Description);
    if !(age.Some? && age.value.JNumber?) {
      errors := errors + ["age should be a number"];
    }
  }

  /**
   * The `PATCH /dogs/:id` checks: the unknown-key pass, then, without
   * stopping, a walk over the entries pushing an error for every recognised
   * key whose value has the wrong type.
   */
  method ValidateUpdate(body: Body) returns (errors: seq<string>)
    ensures errors == UpdateErrors(body)
  {
    errors := CollectUnknownKeyErrors(Keys(body));
    var j := 0;
    while j < |body|
      invariant 0 <= j <= |body|
      invariant errors == UnknownKeyErrors(Keys(body)) + UpdateTypeErrors(body[..j])
    {
      errors := CheckEntry(errors, body[j]);
      UpdateTypeErrorsAppend(body[..j], [body[j]]);
      assert [body[j]][1..] == [];
      assert body[..j + 1] == body[..j] + [body[j]];
      j := j + 1;
    }
    assert body[..j] == body;
  }

  /** The callback the update handler runs on each entry. */
  method CheckEntry(errors: seq<string>, entry: Entry) returns (pushed: seq<string>)
    ensures pushed == errors + EntryTypeErrors(entry)
  {
    var key, value := entry.key, entry.value;
    pushed := errors;
    if key == "name" && !value.JString? {
      pushed := pushed + ["name should be a string"];
    }
    if key == "breed" && !value.JString? {
      pushed := pushed + ["breed should be a string"];
    }
    if key == "description" && !value.JString? {
      pushed := pushed + ["description should be a string"];
    }
    if key == "age" && !value.JNumber? {
      pushed := pushed + ["age should be a number"];
    }
  }
}
