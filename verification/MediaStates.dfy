/** enum SscMediaState (Lab/sofsip-cli-0.16/src/ssc_media.h:64-71). */
module MediaStates {
  datatype MediaState = Init | LocalReady | Active | Error | Disabled
}
