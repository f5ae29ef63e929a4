/**
 The codec registry of the inference server: two independent finite maps from a
 content type to a codec, one for input-level codecs and one for request-level
 codecs. Registration overwrites silently; lookup of an unknown content type
 fails with a missing-key error. The registry is a value here; the source keeps
 one mutable module-level instance, which is `Initial()` threaded through calls.
 */
module Codecs {
  import opened Wrappers

  type ContentType = string

  /** The `KeyError` raised by a dictionary lookup of an absent content type. */
  datatype KeyError = KeyError(key: ContentType)

  /** `_CodecRegistry`: input codecs of type `I`, request codecs of type `R`. */
  datatype Registry<I, R> = Registry(inputCodecs: map<ContentType, I>, requestCodecs: map<ContentType, R>)

  /** `find_input_codec`: the registered codec, or the missing-key error. */
  function FindInputCodec<I, R>(reg: Registry<I, R>, contentType: ContentType): (r: Result<I, KeyError>)
    ensures r.Success? <==> contentType in reg.inputCodecs
    ensures r.Success? ==> r.value == reg.inputCodecs[contentType]
    ensures r.Failure? ==> r.error == KeyError(contentType)
  {
    if contentType in reg.inputCodecs then Success(reg.inputCodecs[contentType])
    else Failure(KeyError(contentType))
  }

  /** `find_request_codec`: the registered codec, or the missing-key error. */
  function FindRequestCodec<I, R>(reg: Registry<I, R>, contentType: ContentType): (r: Result<R, KeyError>)
    ensures r.Success? <==> contentType in reg.requestCodecs
    ensures r.Success? ==> r.value == reg.requestCodecs[contentType]
    ensures r.Failure? ==> r.error == KeyError(contentType)
  {
    if contentType in reg.requestCodecs then Success(reg.requestCodecs[contentType])
    else Failure(KeyError(contentType))
  }

  /** The module-level singleton `_codec_registry`, created with nothing registered. */
  function Initial<I, R>(): (reg: Registry<I, R>)
    ensures forall ct :: FindInputCodec(reg, ct) == Failure(KeyError(ct))
    ensures forall ct :: FindRequestCodec(reg, ct) == Failure(KeyError(ct))
  {
    Registry(map[], map[])
  }

  /**
   `register_input_codec`: afterwards the content type finds the new codec, every
   other content type finds what it found before, and request codecs are untouched.
   */
  function RegisterInputCodec<I, R>(reg: Registry<I, R>, contentType: ContentType, codec: I): (reg': Registry<I, R>)
    ensures FindInputCodec(reg', contentType) == Success(codec)
    ensures forall ct :: ct != contentType ==> FindInputCodec(reg', ct) == FindInputCodec(reg, ct)
    ensures forall ct :: FindRequestCodec(reg', ct) == FindRequestCodec(reg, ct)
  {
    reg.(inputCodecs := reg.inputCodecs[contentType := codec])
  }

  /**
   `register_request_codec`: afterwards the content type finds the new codec, every
   other content type finds what it found before, and input codecs are untouched.
   */
  function RegisterRequestCodec<I, R>(reg: Registry<I, R>, contentType: ContentType, codec: R): (reg': Registry<I, R>)
    ensures FindRequestCodec(reg', contentType) == Success(codec)
    ensures forall ct :: ct != contentType ==> FindRequestCodec(reg', ct) == FindRequestCodec(reg, ct)
    ensures forall ct :: FindInputCodec(reg', ct) == FindInputCodec(reg, ct)
  {
    reg.(requestCodecs := reg.requestCodecs[contentType := codec])
  }

  /**
   The decorator `register_input_codec(contentType)` applied to a codec class:
   one instance, built by `instantiate`, is registered under the content type,
   and the class itself is handed back unchanged.
   */
  function RegisterInputCodecClass<I, R, K>(reg: Registry<I, R>, contentType: ContentType, klass: K, instantiate: K -> I)
    : (res: (Registry<I, R>, K))
    ensures res.1 == klass
    ensures FindInputCodec(res.0, contentType) == Success(instantiate(klass))
    ensures forall ct :: ct != contentType ==> FindInputCodec(res.0, ct) == FindInputCodec(reg, ct)
    ensures forall ct :: FindRequestCodec(res.0, ct) == FindRequestCodec(reg, ct)
  {
    (RegisterInputCodec(reg, contentType, instantiate(klass)), klass)
  }

  /**
   The decorator `register_request_codec(contentType)` applied to a codec class:
   one instance, built by `instantiate`, is registered under the content type,
   and the class itself is handed back unchanged.
   */
  function RegisterRequestCodecClass<I, R, K>(reg: Registry<I, R>, contentType: ContentType, klass: K, instantiate: K -> R)
    : (res: (Registry<I, R>, K))
    ensures res.1 == klass
    ensures FindRequestCodec(res.0, contentType) == Success(instantiate(klass))
    ensures forall ct :: ct != contentType ==> FindRequestCodec(res.0, ct) == FindRequestCodec(reg, ct)
    ensures forall ct :: FindInputCodec(res.0, ct) == FindInputCodec(reg, ct)
  {
    (RegisterRequestCodec(reg, contentType, instantiate(klass)), klass)
  }

  /** Registering twice under one content type keeps only the later codec, without error. */
  lemma InputOverwriteLastWins<I, R>(reg: Registry<I, R>, contentType: ContentType, first: I, second: I)
    ensures RegisterInputCodec(RegisterInputCodec(reg, contentType, first), contentType, second)
         == RegisterInputCodec(reg, contentType, second)
  {
  }

  /** Registering twice under one content type keeps only the later codec, without error. */
  lemma RequestOverwriteLastWins<I, R>(reg: Registry<I, R>, contentType: ContentType, first: R, second: R)
    ensures RegisterRequestCodec(RegisterRequestCodec(reg, contentType, first), contentType, second)
         == RegisterRequestCodec(reg, contentType, second)
  {
  }

  /**
   Registrations under different content types commute: the order in which
   codecs for distinct content types are registered does not matter.
   */
  lemma InputRegistrationsCommute<I, R>(reg: Registry<I, R>, ct1: ContentType, c1: I, ct2: ContentType, c2: I)
    requires ct1 != ct2
    ensures RegisterInputCodec(RegisterInputCodec(reg, ct1, c1), ct2, c2)
         == RegisterInputCodec(RegisterInputCodec(reg, ct2, c2), ct1, c1)
  {
  }

  /**
   Replaying a sequence of input-codec registrations, in order, on any
   registry. Input registrations never touch the request-codec map; which
   input codec each content type then finds is `RegisterAllInputFindsLast`.
   */
  function RegisterAllInput<I, R>(reg: Registry<I, R>, regs: seq<(ContentType, I)>): (reg': Registry<I, R>)
    ensures forall ct :: FindRequestCodec(reg', ct) == FindRequestCodec(reg, ct)
    decreases |regs|
  {
    if |regs| == 0 then reg
    else RegisterAllInput(RegisterInputCodec(reg, regs[0].0, regs[0].1), regs[1..])
  }

  /** The codec a content type finds after `regs`, by looking for its last registration. */
  function LastRegistered<C>(regs: seq<(ContentType, C)>, contentType: ContentType): (r: Option<C>)
    ensures r.None? <==> forall i :: 0 <= i < |regs| ==> regs[i].0 != contentType
    decreases |regs|
  {
    if |regs| == 0 then None
    else if regs[|regs| - 1].0 == contentType then Some(regs[|regs| - 1].1)
    else LastRegistered(regs[..|regs| - 1], contentType)
  }

  /** Replay agrees with the last-registration reference for every content type. */
  lemma {:induction false} RegisterAllInputFindsLast<I, R>(reg: Registry<I, R>, regs: seq<(ContentType, I)>, contentType: ContentType)
    ensures FindInputCodec(RegisterAllInput(reg, regs), contentType)
         == match LastRegistered(regs, contentType)
            case Some(c) => Success(c)
            case None => FindInputCodec(reg, contentType)
    decreases |regs|
  {
    if |regs| > 0 {
      var reg1 := RegisterInputCodec(reg, regs[0].0, regs[0].1);
      RegisterAllInputFindsLast(reg1, regs[1..], contentType);
      LastRegisteredCons(regs, contentType);
    }
  }

  /** Peeling the FIRST registration off the reference: it matters only if no later one hits. */
  lemma {:induction false} LastRegisteredCons<C>(regs: seq<(ContentType, C)>, contentType: ContentType)
    requires |regs| > 0
    ensures LastRegistered(regs, contentType)
         == match LastRegistered(regs[1..], contentType)
            case Some(c) => Some(c)
            case None => if regs[0].0 == contentType then Some(regs[0].1) else None
    decreases |regs|
  {
    if |regs| > 1 {
      var n := |regs|;
      assert regs[1..][..n - 2] == regs[..n - 1][1..];
      assert regs[1..][n - 2] == regs[n - 1];
      if regs[n - 1].0 != contentType {
        LastRegisteredCons(regs[..n - 1], contentType);
      }
    }
  }
}
