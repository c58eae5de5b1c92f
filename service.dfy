/**
 * The service configuration (src/service.rs): the Notion and Gemini
 * services store their credentials and database ids trimmed.
 */
module Service {
  import opened Wrappers
  import Strings

  /** The shared HTTP client; only its identity matters here. */
  datatype Client = Client(handle: nat)

  datatype NotionService = NotionService(client: Client, api_key: string, diary_db_id: string, report_db_id: string)

  datatype GeminiService = GeminiService(client: Client, api_key: string)

  /** The boxed error the constructors could return (they never do). */
  datatype ServiceError = ServiceError(message: string)

  /** `NotionService::new`: always `Ok`; the client is kept and every string is trimmed. */
  function NewNotionService(client: Client, api_key: string, diary_db_id: string, report_db_id: string): (r: Result<NotionService, ServiceError>)
    ensures r.Ok? && r.value.client == client
    ensures Strings.IsTrimOf(r.value.api_key, api_key)
    ensures Strings.IsTrimOf(r.value.diary_db_id, diary_db_id)
    ensures Strings.IsTrimOf(r.value.report_db_id, report_db_id)
  {
    Ok(NotionService(client, Strings.Trim(api_key), Strings.Trim(diary_db_id), Strings.Trim(report_db_id)))
  }

  /** `GeminiService::new`: always `Ok`; the client is kept and the key is trimmed. */
  function NewGeminiService(client: Client, api_key: string): (r: Result<GeminiService, ServiceError>)
    ensures r.Ok? && r.value.client == client
    ensures Strings.IsTrimOf(r.value.api_key, api_key)
  {
    Ok(GeminiService(client, Strings.Trim(api_key)))
  }

  /** Building a service again from a built service's own fields changes nothing. */
  lemma NotionServiceStable(client: Client, api_key: string, diary_db_id: string, report_db_id: string)
    ensures var s := NewNotionService(client, api_key, diary_db_id, report_db_id).value;
            NewNotionService(s.client, s.api_key, s.diary_db_id, s.report_db_id) == Ok(s)
  {
    Strings.TrimIdempotent(api_key);
    Strings.TrimIdempotent(diary_db_id);
    Strings.TrimIdempotent(report_db_id);
  }

  /** Building a Gemini service again from its own fields changes nothing. */
  lemma GeminiServiceStable(client: Client, api_key: string)
    ensures var s := NewGeminiService(client, api_key).value;
            NewGeminiService(s.client, s.api_key) == Ok(s)
  {
    Strings.TrimIdempotent(api_key);
  }

  /** A key made only of whitespace (a blank line in the environment) is stored empty. */
  lemma BlankKeyStoredEmpty(client: Client, api_key: string)
    requires Strings.IsBlank(api_key)
    ensures NewGeminiService(client, api_key).value.api_key == ""
  {
    Strings.TrimEmptyIffBlank(api_key);
  }
}
