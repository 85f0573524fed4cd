/**
 What the Box knows besides the shared-worker tables: its claim, the advertised workers, the enrolled participants
 and the connection grants. Identifier 0 is the nil UUID and times are milliseconds.
 */
module BoxRegistry {
  import opened Bytes

  const NIL: nat := 0
  const MAX_INT64: nat := 0x7FFF_FFFF_FFFF_FFFF

  datatype Worker = Worker(boxID: nat, ownerParticipantID: nat, ownerDeviceID: nat, capabilitiesDigest: string,
    expiresAt: int)

  datatype Connection = Connection(revoked: bool, expiresAt: int)

  /** `claimedBox` is the Box's own ID once it has an owner; `devices` maps each enrolled participant to its device. */
  datatype Registry = Registry(claimedBox: Option<nat>, workers: map<nat, Worker>, devices: map<nat, nat>,
    enrollmentValid: (nat, int) -> bool, connections: map<nat, Connection>, digest: seq<byte> -> string)

  /** Sixty-four lower-case hexadecimal digits. */
  predicate DigestShape(d: string) {
    |d| == 64 && forall i :: 0 <= i < |d| ==> '0' <= d[i] <= '9' || 'a' <= d[i] <= 'f'
  }

  /** The participant is enrolled with this device and valid at this time. */
  predicate Enrolled(r: Registry, participantID: nat, deviceID: nat, now: int) {
    participantID in r.devices && r.devices[participantID] == deviceID && r.enrollmentValid(participantID, now)
  }
}
