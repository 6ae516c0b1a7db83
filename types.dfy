/** Records shared by several parts of the game (lib/types/index.ts). */
module Types {
  import opened Wrappers

  /** A trivia question as the client shows it (`QuestionData`). */
  datatype QuestionData = QuestionData(
    id: string,
    questionText: string,
    options: seq<string>,
    correctAnswerIndex: int,
    explanation: Option<string>)

  /** A user as the local cache and the user store hold it (`UserCache`). */
  datatype UserCache = UserCache(username: string, userId: Option<string>)

  /** The three user settings (`UserSettingsCache`). */
  datatype Settings = Settings(difficulty: string, ttsEnabled: bool, ttsVoice: string)
}
