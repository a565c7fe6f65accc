/** The part of the configuration (src/config.rs) that the core reads:
    the feature switches that decide which commands the palette offers. */
module Config {

  datatype Features = Features(
    commandPalette: bool,
    activityIndicators: bool,
    aiSuggestions: bool,
    collaborativeSessions: bool,
    sessionRecording: bool,
    plugins: bool)
}
