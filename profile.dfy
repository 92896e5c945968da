/** The per-user voice and language settings (`ConfiguracionVoz`). */
module Profile {

  datatype ConfigVoz = ConfigVoz(
    voiceCodeTts: string,        // voice for the language being learnt
    voiceCodeNativeTts: string,  // voice for the user's native language
    velocidad: real,             // speaking rate
    idiomaPreferido: string,
    idiomaNativo: string,        // a language NAME, e.g. "Español"
    idiomaObjetivo: string,      // a language NAME, e.g. "Inglés"
    diasCooldown: int            // days to wait before retaking a quiz
  )

  /** The column defaults a freshly created settings row gets. */
  function Defaults(): (c: ConfigVoz)
    ensures c.diasCooldown == 3
    ensures c.idiomaNativo == "Español" && c.idiomaObjetivo == "Inglés"
  {
    ConfigVoz("es-US-Wavenet-A", "es-ES-Neural2-B", 1.0, "es-US", "Español", "Inglés", 3)
  }
}
