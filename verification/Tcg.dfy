/** Code tables of the TCG event log format. */
module Tcg {
  import opened Wrappers

  datatype Algorithm = Rsa | Tdes | Sha1 | Sha256 | Sha384 | Sha512 | Sm3

  function AlgorithmCode(a: Algorithm): (n: nat) {
    match a
    case Rsa => 0x1
    case Tdes => 0x3
    case Sha1 => 0x4
    case Sha256 => 0xb
    case Sha384 => 0xc
    case Sha512 => 0xd
    case Sm3 => 0x12
  }

  function AlgorithmFromCode(n: nat): Option<Algorithm> {
    match n
    case 0x1 => Some(Rsa)
    case 0x3 => Some(Tdes)
    case 0x4 => Some(Sha1)
    case 0xb => Some(Sha256)
    case 0xc => Some(Sha384)
    case 0xd => Some(Sha512)
    case 0x12 => Some(Sm3)
    case _ => None
  }

  lemma AlgorithmCodes(n: nat, a: Algorithm)
    ensures AlgorithmFromCode(n) == Some(a) <==> AlgorithmCode(a) == n
    ensures AlgorithmCode(a) < 0x1_0000
  {
  }

  /** Size of the register that an algorithm extends, where the algorithm is a digest. */
  function DigestSize(a: Algorithm): Option<nat> {
    match a
    case Sha1 => Some(20)
    case Sha256 => Some(32)
    case Sha384 => Some(48)
    case Sha512 => Some(64)
    case Sm3 => Some(32)
    case _ => None
  }

  /** Algorithms that can be computed; SHA-1 has a size but no implementation. */
  predicate Hashable(a: Algorithm) {
    a.Sha256? || a.Sha384? || a.Sha512? || a.Sm3?
  }

  datatype EventType =
    | PrebootCert
    | PostCode
    | Unused
    | NoAction
    | Separator
    | Action
    | EventTag
    | SCrtmContents
    | SCrtmVersion
    | CpuMicrocode
    | PlatformConfigFlags
    | TableOfDevices
    | CompactHash
    | Ipl
    | IplPartitionData
    | NonhostCode
    | NonhostConfig
    | NonhostInfo
    | OmitBootDeviceEvents
    | EfiEventBase
    | EfiVariableDriverConfig
    | EfiVariableBoot
    | EfiBootServicesApplication
    | EfiBootServicesDriver
    | EfiRuntimeServicesDriver
    | EfiGptEvent
    | EfiAction
    | EfiPlatformFirmwareBlob
    | EfiHandoffTables
    | EfiPlatformFirmwareBlob2
    | EfiHandoffTables2
    | EfiVariableBoot2
    | EfiHcrtmEvent
    | EfiVariableAuthority
    | EfiSpdmFirmwareBlob
    | EfiSpdmFirmwareConfig

  function EventTypeCode(t: EventType): (n: nat) {
    match t
    case PrebootCert => 0x0
    case PostCode => 0x1
    case Unused => 0x2
    case NoAction => 0x3
    case Separator => 0x4
    case Action => 0x5
    case EventTag => 0x6
    case SCrtmContents => 0x7
    case SCrtmVersion => 0x8
    case CpuMicrocode => 0x9
    case PlatformConfigFlags => 0xa
    case TableOfDevices => 0xb
    case CompactHash => 0xc
    case Ipl => 0xd
    case IplPartitionData => 0xe
    case NonhostCode => 0xf
    case NonhostConfig => 0x10
    case NonhostInfo => 0x11
    case OmitBootDeviceEvents => 0x12
    case EfiEventBase => 0x80000000
    case EfiVariableDriverConfig => 0x80000001
    case EfiVariableBoot => 0x80000002
    case EfiBootServicesApplication => 0x80000003
    case EfiBootServicesDriver => 0x80000004
    case EfiRuntimeServicesDriver => 0x80000005
    case EfiGptEvent => 0x80000006
    case EfiAction => 0x80000007
    case EfiPlatformFirmwareBlob => 0x80000008
    case EfiHandoffTables => 0x80000009
    case EfiPlatformFirmwareBlob2 => 0x8000000a
    case EfiHandoffTables2 => 0x8000000b
    case EfiVariableBoot2 => 0x8000000c
    case EfiHcrtmEvent => 0x80000010
    case EfiVariableAuthority => 0x800000e0
    case EfiSpdmFirmwareBlob => 0x800000e1
    case EfiSpdmFirmwareConfig => 0x800000e2
  }

  function EventTypeFromCode(n: nat): Option<EventType> {
    match n
    case 0x0 => Some(PrebootCert)
    case 0x1 => Some(PostCode)
    case 0x2 => Some(Unused)
    case 0x3 => Some(NoAction)
    case 0x4 => Some(Separator)
    case 0x5 => Some(Action)
    case 0x6 => Some(EventTag)
    case 0x7 => Some(SCrtmContents)
    case 0x8 => Some(SCrtmVersion)
    case 0x9 => Some(CpuMicrocode)
    case 0xa => Some(PlatformConfigFlags)
    case 0xb => Some(TableOfDevices)
    case 0xc => Some(CompactHash)
    case 0xd => Some(Ipl)
    case 0xe => Some(IplPartitionData)
    case 0xf => Some(NonhostCode)
    case 0x10 => Some(NonhostConfig)
    case 0x11 => Some(NonhostInfo)
    case 0x12 => Some(OmitBootDeviceEvents)
    case 0x80000000 => Some(EfiEventBase)
    case 0x80000001 => Some(EfiVariableDriverConfig)
    case 0x80000002 => Some(EfiVariableBoot)
    case 0x80000003 => Some(EfiBootServicesApplication)
    case 0x80000004 => Some(EfiBootServicesDriver)
    case 0x80000005 => Some(EfiRuntimeServicesDriver)
    case 0x80000006 => Some(EfiGptEvent)
    case 0x80000007 => Some(EfiAction)
    case 0x80000008 => Some(EfiPlatformFirmwareBlob)
    case 0x80000009 => Some(EfiHandoffTables)
    case 0x8000000a => Some(EfiPlatformFirmwareBlob2)
    case 0x8000000b => Some(EfiHandoffTables2)
    case 0x8000000c => Some(EfiVariableBoot2)
    case 0x80000010 => Some(EfiHcrtmEvent)
    case 0x800000e0 => Some(EfiVariableAuthority)
    case 0x800000e1 => Some(EfiSpdmFirmwareBlob)
    case 0x800000e2 => Some(EfiSpdmFirmwareConfig)
    case _ => None
  }

  lemma EventTypeCodes(n: nat, t: EventType)
    ensures EventTypeFromCode(n) == Some(t) <==> EventTypeCode(t) == n
    ensures EventTypeCode(t) < 0xffff_ffff
  {
  }
}
