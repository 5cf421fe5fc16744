/** What Sign refuses before it asks any device: the arguments both TPM backends check alike. */
module SignArguments {
  import opened Bytes

  datatype Hash = SHA256 | SHA384 | SHA512 | OtherHash

  datatype SignError = PssUnsupported | HashUnsupported | WrongDigestLength | SignerClosed | DeviceFailed

  function DigestSize(h: Hash): Option<nat> {
    match h
    case SHA256 => Some(32)
    case SHA384 => Some(48)
    case SHA512 => Some(64)
    case OtherHash => None
  }

  function Refused(pss: bool, h: Hash, digest: bytes): Option<SignError> {
    if pss then Some(PssUnsupported)
    else if DigestSize(h) == None then Some(HashUnsupported)
    else if |digest| != DigestSize(h).value then Some(WrongDigestLength)
    else None
  }
}
