/**
 * The permission condition of `askForPermissions` in hushHarmonyMobile/App.jsx.
 *
 * On iOS the microphone permission is requested and the when-in-use location permission
 * is only checked; on every other platform (the Android branch) both the record-audio and
 * the fine-location permissions are requested. Collection starts only when both answers are `GRANTED`.
 */
module Permissions {

  /** `Platform.OS` as the screen tests it: `'ios'`, or anything else, which takes the Android branch. */
  datatype Platform = IOS | NotIos

  /** The two device capabilities the screen needs. */
  datatype Capability = Microphone | Location

  /** The permission names the screen queries. */
  datatype Permission =
    | IosMicrophone
    | IosLocationWhenInUse
    | AndroidRecordAudio
    | AndroidAccessFineLocation

  /** A call into the permissions library: `request` may prompt, `check` only reads. */
  datatype Query = Request(permission: Permission) | Check(permission: Permission)

  /** The answers the permissions library can give. */
  datatype Status = Unavailable | Denied | Limited | Granted | Blocked

  function PlatformOf(p: Permission): Platform
  {
    match p
    case IosMicrophone | IosLocationWhenInUse => IOS
    case AndroidRecordAudio | AndroidAccessFineLocation => NotIos
  }

  function CapabilityOf(p: Permission): Capability
  {
    match p
    case IosMicrophone | AndroidRecordAudio => Microphone
    case IosLocationWhenInUse | AndroidAccessFineLocation => Location
  }

  /** The first query: the microphone permission of the platform, always requested. */
  function MicrophoneQuery(platform: Platform): (q: Query)
    ensures q.Request?
    ensures PlatformOf(q.permission) == platform
    ensures CapabilityOf(q.permission) == Microphone
  {
    match platform
    case IOS => Request(IosMicrophone)
    case NotIos => Request(AndroidRecordAudio)
  }

  /** The second query: the location permission of the platform, only checked on iOS. */
  function LocationQuery(platform: Platform): (q: Query)
    ensures q.Check? <==> platform == IOS
    ensures PlatformOf(q.permission) == platform
    ensures CapabilityOf(q.permission) == Location
  {
    match platform
    case IOS => Check(IosLocationWhenInUse)
    case NotIos => Request(AndroidAccessFineLocation)
  }

  /** The queries `askForPermissions` issues, in order. */
  function Queries(platform: Platform): (qs: seq<Query>)
    ensures |qs| == 2
    ensures forall i :: 0 <= i < |qs| ==> PlatformOf(qs[i].permission) == platform
    ensures CapabilityOf(qs[0].permission) == Microphone && CapabilityOf(qs[1].permission) == Location
  {
    [MicrophoneQuery(platform), LocationQuery(platform)]
  }

  /** The answer given for capability `c`, of the microphone answer and the location answer. */
  function AnswerFor(c: Capability, microphone: Status, location: Status): Status
  {
    match c
    case Microphone => microphone
    case Location => location
  }

  /**
   * The condition on which the foreground interval and the background fetch are started:
   * every capability the screen needs was granted, so any other answer for either one
   * starts nothing, whatever the other answer is.
   */
  function MayStartCollection(microphone: Status, location: Status): (start: bool)
    ensures start <==> forall c: Capability :: AnswerFor(c, microphone, location) == Granted
  {
    assert AnswerFor(Microphone, microphone, location) == microphone;
    assert AnswerFor(Location, microphone, location) == location;
    microphone == Granted && location == Granted
  }
}
