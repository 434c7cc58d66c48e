/** The messages of package bitway.dlc. */
module DlcSchemas {
  import opened Schemas
  import opened Buffers

  /** Identities of messages with a foreign codec. */
  const TIMESTAMP: nat := 0
  const DURATION: nat := 1

  const EVENT: Schema := Schema([
    Field(1, Scalar(U64)), Field(2, Scalar(Enum)), Field(3, Text), Field(4, Text), Field(5, Text),
    Field(6, Many(Raw)), Field(7, Scalar(Bool)), Field(8, Scalar(I32)),
    Field(9, One(Ext(TIMESTAMP))), Field(10, One(Ext(TIMESTAMP)))])

  const ATTESTATION: Schema := Schema([
    Field(1, Scalar(U64)), Field(2, Scalar(U64)), Field(3, Text), Field(4, Text), Field(5, Text),
    Field(6, One(Ext(TIMESTAMP)))])

  const PARAMS: Schema := Schema([
    Field(1, Scalar(U32)), Field(2, Scalar(U32)), Field(3, Scalar(I64)),
    Field(4, One(Ext(DURATION))), Field(5, Many(Raw)), Field(6, Scalar(U32)), Field(7, Scalar(U32))])

  const GENESIS: Schema := Schema([
    Field(1, One(Sub(PARAMS))), Field(2, Many(Sub(EVENT))), Field(3, Many(Sub(ATTESTATION)))])

  const LIVENESS: Schema := Schema([
    Field(1, Text), Field(2, Scalar(Bool)), Field(3, Scalar(U64)), Field(4, Scalar(I64))])

  lemma ConsecutiveValid(s: Schema)
    requires Consecutive(s) && |s.fields| <= MAX_FIELD_NUMBER
    requires forall f | f in s.fields :: ValidKind(f.kind)
    ensures ValidSchema(s)
  {
    forall f | f in s.fields
      ensures 0 < f.num <= MAX_FIELD_NUMBER
    {
      var i :| 0 <= i < |s.fields| && s.fields[i] == f;
    }
  }

  lemma EventValid()
    ensures Consecutive(EVENT) && ValidSchema(EVENT)
  {
    ConsecutiveValid(EVENT);
  }

  lemma AttestationValid()
    ensures Consecutive(ATTESTATION) && ValidSchema(ATTESTATION)
  {
    ConsecutiveValid(ATTESTATION);
  }

  lemma ParamsValid()
    ensures Consecutive(PARAMS) && ValidSchema(PARAMS)
  {
    ConsecutiveValid(PARAMS);
  }

  lemma LivenessValid()
    ensures Consecutive(LIVENESS) && ValidSchema(LIVENESS)
  {
    ConsecutiveValid(LIVENESS);
  }

  lemma GenesisValid()
    ensures Consecutive(GENESIS) && ValidSchema(GENESIS)
  {
    hide ValidSchema;
    ParamsValid();
    EventValid();
    AttestationValid();
    ConsecutiveValid(GENESIS);
  }
}
