// The records that routing, caching and dispatch share. Models
// src/llm_router/models.py; scores and weights are reals.
module Models {
  import opened Wrappers

  datatype Privacy = Public | Private | Restricted

  datatype TaskClass = Extraction | Classification | Rag | Summarization | Reasoning | Critique | General

  datatype Modality = Text | Image | Audio

  datatype LatencyTier = Interactive | Standard | Batch

  datatype RoutingOptions = RoutingOptions(
    task: Option<TaskClass>,
    privacy: Privacy,
    latencyTier: LatencyTier,
    qualityFloor: real,
    allowExternalFallback: bool,
    structured: bool,
    modalities: set<Modality>)

  datatype ChatRequest = ChatRequest(
    model: string, prompt: string, maxTokens: int, temperature: real, stream: bool, routing: RoutingOptions)

  datatype ModelProfile = ModelProfile(
    id: string,
    revision: string,
    local: bool,
    healthy: bool,
    contextLimit: int,
    supportedTasks: set<TaskClass>,
    quality: real,
    estimatedQueueMs: int,
    costWeight: real,
    qualityByTask: map<TaskClass, real>,
    structuredOutput: bool,
    modalities: set<Modality>)
  {
    function QualityFor(task: TaskClass): real {
      if task in qualityByTask then qualityByTask[task] else quality
    }
  }
}
