/** The `Cultures` enum: one member per .NET culture name, each carrying that
    name in a `DisplayString` attribute, so that `DisplayString` of a member
    is the name to pass to `CultureInfo`. The members have no explicit
    values, so each one's value is its position in the declaration. */
module Cultures {
  import opened Wrappers
  import Enums

  /** The number of declared members. */
  const Count: nat := 225

  /** A value of the enum: the position of a declared member. */
  type Culture = c: nat | c < Count

  // The members, in declaration order.

  const Afrikaans: Culture := 0
  const Afrikaans_SouthAfrica: Culture := 1
  const Arabic: Culture := 2
  const Arabic_Uae: Culture := 3
  const Arabic_Bahrain: Culture := 4
  const Arabic_Algeria: Culture := 5
  const Arabic_Egypt: Culture := 6
  const Arabic_Iraq: Culture := 7
  const Arabic_Jordan: Culture := 8
  const Arabic_Kuwait: Culture := 9
  const Arabic_Lebanon: Culture := 10
  const Arabic_Libya: Culture := 11
  const Arabic_Morocco: Culture := 12
  const Arabic_Oman: Culture := 13
  const Arabic_Qatar: Culture := 14
  const Arabic_SaudiArabia: Culture := 15
  const Arabic_Syria: Culture := 16
  const Arabic_Tunisia: Culture := 17
  const Arabic_Yemen: Culture := 18
  const Azeri: Culture := 19
  const Azeri_Cyrillic_Azerbaijan: Culture := 20
  const Azeri_Latin_Azerbaijan: Culture := 21
  const Belarusian: Culture := 22
  const Belarusian_Belarus: Culture := 23
  const Bulgarian: Culture := 24
  const Bulgarian_Bulgaria: Culture := 25
  const Bosnian_Bosnia_and_Herzegovina: Culture := 26
  const Catalan: Culture := 27
  const Catalan_Catalan: Culture := 28
  const Czech: Culture := 29
  const Czech_CzechRepublic: Culture := 30
  const Welsh_UnitedKingdom: Culture := 31
  const Danish: Culture := 32
  const Danish_Denmark: Culture := 33
  const German: Culture := 34
  const German_Austria: Culture := 35
  const German_Germany: Culture := 36
  const German_Switzerland: Culture := 37
  const German_Liechtenstein: Culture := 38
  const German_Luxembourg: Culture := 39
  const Divehi: Culture := 40
  const Divehi_Maldives: Culture := 41
  const Greek: Culture := 42
  const Greek_Greece: Culture := 43
  const English: Culture := 44
  const English_Caribbean: Culture := 45
  const English_Australia: Culture := 46
  const English_Belize: Culture := 47
  const English_Canada: Culture := 48
  const English_UnitedKingdom: Culture := 49
  const English_Ireland: Culture := 50
  const English_Jamaica: Culture := 51
  const English_NewZealand: Culture := 52
  const English_RepublicOfThePhilippines: Culture := 53
  const English_Trinidad_and_Tobago: Culture := 54
  const English_UnitedStates: Culture := 55
  const English_SouthAfrica: Culture := 56
  const English_Zimbabwe: Culture := 57
  const Spanish: Culture := 58
  const Spanish_Argentina: Culture := 59
  const Spanish_Bolivia: Culture := 60
  const Spanish_Chile: Culture := 61
  const Spanish_Colombia: Culture := 62
  const Spanish_CostaRica: Culture := 63
  const Spanish_DominicanRepublic: Culture := 64
  const Spanish_Ecuador: Culture := 65
  const Spanish_Spain: Culture := 66
  const Spanish_Guatemala: Culture := 67
  const Spanish_Honduras: Culture := 68
  const Spanish_Mexico: Culture := 69
  const Spanish_Nicaragua: Culture := 70
  const Spanish_Panama: Culture := 71
  const Spanish_Peru: Culture := 72
  const Spanish_PuertoRico: Culture := 73
  const Spanish_Paraguay: Culture := 74
  const Spanish_ElSalvador: Culture := 75
  const Spanish_Uruguay: Culture := 76
  const Spanish_Venezuela: Culture := 77
  const Estonian: Culture := 78
  const Estonian_Estonia: Culture := 79
  const Basque: Culture := 80
  const Basque_Basque: Culture := 81
  const Persian: Culture := 82
  const Persian_Iran: Culture := 83
  const Finnish: Culture := 84
  const Finnish_Finland: Culture := 85
  const Faroese: Culture := 86
  const Faroese_FaroeIslands: Culture := 87
  const French: Culture := 88
  const French_Belgium: Culture := 89
  const French_Canada: Culture := 90
  const French_France: Culture := 91
  const French_Switzerland: Culture := 92
  const French_Luxembourg: Culture := 93
  const French_PrincipalityOfMonaco: Culture := 94
  const Galician: Culture := 95
  const Galician_Galician: Culture := 96
  const Gujarati: Culture := 97
  const Gujarati_India: Culture := 98
  const Hebrew: Culture := 99
  const Hebrew_Israel: Culture := 100
  const Hindi: Culture := 101
  const Hindi_India: Culture := 102
  const Croatian: Culture := 103
  const Croatian_Bosnia_and_Herzegovina: Culture := 104
  const Croatian_Croatia: Culture := 105
  const Hungarian: Culture := 106
  const Hungarian_Hungary: Culture := 107
  const Armenian: Culture := 108
  const Armenian_Armenia: Culture := 109
  const Indonesian: Culture := 110
  const Indonesian_Indonesia: Culture := 111
  const Icelandic: Culture := 112
  const Icelandic_Iceland: Culture := 113
  const Italian: Culture := 114
  const Italian_Switzerland: Culture := 115
  const Italian_Italy: Culture := 116
  const Japanese: Culture := 117
  const Japanese_Japan: Culture := 118
  const Georgian: Culture := 119
  const Georgian_Georgia: Culture := 120
  const Kazakh: Culture := 121
  const Kazakh_Kazakhstan: Culture := 122
  const Kannada: Culture := 123
  const Kannada_India: Culture := 124
  const Korean: Culture := 125
  const Konkani: Culture := 126
  const Konkani_India: Culture := 127
  const Korean_Korea: Culture := 128
  const Kyrgyz: Culture := 129
  const Kyrgyz_Kyrgyzstan: Culture := 130
  const Lithuanian: Culture := 131
  const Lithuanian_Lithuania: Culture := 132
  const Latvian: Culture := 133
  const Latvian_Latvia: Culture := 134
  const Maori_NewZealand: Culture := 135
  const Macedonian: Culture := 136
  const Macedonian_FormerYugoslavRepublicOfMacedonia: Culture := 137
  const Mongolian: Culture := 138
  const Mongolian_Cyrillic_Mongolia: Culture := 139
  const Marathi: Culture := 140
  const Marathi_India: Culture := 141
  const Malay: Culture := 142
  const Malay_Brunei_Darussalam: Culture := 143
  const Malay_Malaysia: Culture := 144
  const Maltese_Malta: Culture := 145
  const Norwegian_Bokmal_Norway: Culture := 146
  const Dutch: Culture := 147
  const Dutch_Belgium: Culture := 148
  const Dutch_Netherlands: Culture := 149
  const Norwegian_Nynorsk_Norway: Culture := 150
  const Norwegian: Culture := 151
  const Northern_Sotho_SouthAfrica: Culture := 152
  const Punjabi: Culture := 153
  const Punjabi_India: Culture := 154
  const Polish: Culture := 155
  const Polish_Poland: Culture := 156
  const Portuguese: Culture := 157
  const Portuguese_Brazil: Culture := 158
  const Portuguese_Portugal: Culture := 159
  const Quechua_Bolivia: Culture := 160
  const Quechua_Ecuador: Culture := 161
  const Quechua_Peru: Culture := 162
  const Romanian: Culture := 163
  const Romanian_Romania: Culture := 164
  const Russian: Culture := 165
  const Russian_Russia: Culture := 166
  const Sanskrit: Culture := 167
  const Sanskrit_India: Culture := 168
  const Sami_Northern_Finland: Culture := 169
  const Sami_Northern_Norway: Culture := 170
  const Sami_Northern_Sweden: Culture := 171
  const Slovak: Culture := 172
  const Slovak_Slovakia: Culture := 173
  const Slovenian: Culture := 174
  const Slovenian_Slovenia: Culture := 175
  const Sami_Southern_Norway: Culture := 176
  const Sami_Southern_Sweden: Culture := 177
  const Sami_Lule_Norway: Culture := 178
  const Sami_Lule_Sweden: Culture := 179
  const Sami_Inari_Finland: Culture := 180
  const Sami_Skolt_Finland: Culture := 181
  const Albanian: Culture := 182
  const Albanian_Albania: Culture := 183
  const Serbian: Culture := 184
  const Serbian_Cyrillic_BosniaAndHerzegovina: Culture := 185
  const Serbian_Cyrillic_Serbia: Culture := 186
  const Serbian_Latin_Bosnia_and_Herzegovina: Culture := 187
  const Serbian_Latin_Serbia: Culture := 188
  const Swedish: Culture := 189
  const Swedish_Finland: Culture := 190
  const Swedish_Sweden: Culture := 191
  const Kiswahili: Culture := 192
  const Kiswahili_Kenya: Culture := 193
  const Syriac: Culture := 194
  const Syriac_Syria: Culture := 195
  const Tamil: Culture := 196
  const Tamil_India: Culture := 197
  const Telugu: Culture := 198
  const Telugu_India: Culture := 199
  const Thai: Culture := 200
  const Thai_Thailand: Culture := 201
  const Tswana_SouthAfrica: Culture := 202
  const Turkish: Culture := 203
  const Turkish_Turkey: Culture := 204
  const Tatar: Culture := 205
  const Tatar_Russia: Culture := 206
  const Ukrainian: Culture := 207
  const Ukrainian_Ukraine: Culture := 208
  const Urdu: Culture := 209
  const Urdu_IslamicRepublicOfPakistan: Culture := 210
  const Uzbek: Culture := 211
  const Uzbek_Cyrillic_Uzbekistan: Culture := 212
  const Uzbek_Latin_Uzbekistan: Culture := 213
  const Vietnamese: Culture := 214
  const Vietnamese_Vietnam: Culture := 215
  const Xhosa_SouthAfrica: Culture := 216
  const Chinese_Simplified: Culture := 217
  const Chinese_Traditional: Culture := 218
  const Chinese_PeoplesRepublicOfChina: Culture := 219
  const Chinese_HongKongSAR: Culture := 220
  const Chinese_MacaoSAR: Culture := 221
  const Chinese_Singapore: Culture := 222
  const Chinese_Taiwan: Culture := 223
  const Zulu_SouthAfrica: Culture := 224

  /** The member's identifier, as `ToString` spells it. */
  function Name(c: Culture): string {
    if c < 112 then
      if c < 56 then
        if c < 28 then
          if c < 14 then
            if c < 7 then
              if c < 3 then
                if c < 1 then
                  "Afrikaans"
                else
                  if c < 2 then
                    "Afrikaans_SouthAfrica"
                  else
                    "Arabic"
              else
                if c < 5 then
                  if c < 4 then
                    "Arabic_Uae"
                  else
                    "Arabic_Bahrain"
                else
                  if c < 6 then
                    "Arabic_Algeria"
                  else
                    "Arabic_Egypt"
            else
              if c < 10 then
                if c < 8 then
                  "Arabic_Iraq"
                else
                  if c < 9 then
                    "Arabic_Jordan"
                  else
                    "Arabic_Kuwait"
              else
                if c < 12 then
                  if c < 11 then
                    "Arabic_Lebanon"
                  else
                    "Arabic_Libya"
                else
                  if c < 13 then
                    "Arabic_Morocco"
                  else
                    "Arabic_Oman"
          else
            if c < 21 then
              if c < 17 then
                if c < 15 then
                  "Arabic_Qatar"
                else
                  if c < 16 then
                    "Arabic_SaudiArabia"
                  else
                    "Arabic_Syria"
              else
                if c < 19 then
                  if c < 18 then
                    "Arabic_Tunisia"
                  else
                    "Arabic_Yemen"
                else
                  if c < 20 then
                    "Azeri"
                  else
                    "Azeri_Cyrillic_Azerbaijan"
            else
              if c < 24 then
                if c < 22 then
                  "Azeri_Latin_Azerbaijan"
                else
                  if c < 23 then
                    "Belarusian"
                  else
                    "Belarusian_Belarus"
              else
                if c < 26 then
                  if c < 25 then
                    "Bulgarian"
                  else
                    "Bulgarian_Bulgaria"
                else
                  if c < 27 then
                    "Bosnian_Bosnia_and_Herzegovina"
                  else
                    "Catalan"
        else
          if c < 42 then
            if c < 35 then
              if c < 31 then
                if c < 29 then
                  "Catalan_Catalan"
                else
                  if c < 30 then
                    "Czech"
                  else
                    "Czech_CzechRepublic"
              else
                if c < 33 then
                  if c < 32 then
                    "Welsh_UnitedKingdom"
                  else
                    "Danish"
                else
                  if c < 34 then
                    "Danish_Denmark"
                  else
                    "German"
            else
              if c < 38 then
                if c < 36 then
                  "German_Austria"
                else
                  if c < 37 then
                    "German_Germany"
                  else
                    "German_Switzerland"
              else
                if c < 40 then
                  if c < 39 then
                    "German_Liechtenstein"
                  else
                    "German_Luxembourg"
                else
                  if c < 41 then
                    "Divehi"
                  else
                    "Divehi_Maldives"
          else
            if c < 49 then
              if c < 45 then
                if c < 43 then
                  "Greek"
                else
                  if c < 44 then
                    "Greek_Greece"
                  else
                    "English"
              else
                if c < 47 then
                  if c < 46 then
                    "English_Caribbean"
                  else
                    "English_Australia"
                else
                  if c < 48 then
                    "English_Belize"
                  else
                    "English_Canada"
            else
              if c < 52 then
                if c < 50 then
                  "English_UnitedKingdom"
                else
                  if c < 51 then
                    "English_Ireland"
                  else
                    "English_Jamaica"
              else
                if c < 54 then
                  if c < 53 then
                    "English_NewZealand"
                  else
                    "English_RepublicOfThePhilippines"
                else
                  if c < 55 then
                    "English_Trinidad_and_Tobago"
                  else
                    "English_UnitedStates"
      else
        if c < 84 then
          if c < 70 then
            if c < 63 then
              if c < 59 then
                if c < 57 then
                  "English_SouthAfrica"
                else
                  if c < 58 then
                    "English_Zimbabwe"
                  else
                    "Spanish"
              else
                if c < 61 then
                  if c < 60 then
                    "Spanish_Argentina"
                  else
                    "Spanish_Bolivia"
                else
                  if c < 62 then
                    "Spanish_Chile"
                  else
                    "Spanish_Colombia"
            else
              if c < 66 then
                if c < 64 then
                  "Spanish_CostaRica"
                else
                  if c < 65 then
                    "Spanish_DominicanRepublic"
                  else
                    "Spanish_Ecuador"
              else
                if c < 68 then
                  if c < 67 then
                    "Spanish_Spain"
                  else
                    "Spanish_Guatemala"
                else
                  if c < 69 then
                    "Spanish_Honduras"
                  else
                    "Spanish_Mexico"
          else
            if c < 77 then
              if c < 73 then
                if c < 71 then
                  "Spanish_Nicaragua"
                else
                  if c < 72 then
                    "Spanish_Panama"
                  else
                    "Spanish_Peru"
              else
                if c < 75 then
                  if c < 74 then
                    "Spanish_PuertoRico"
                  else
                    "Spanish_Paraguay"
                else
                  if c < 76 then
                    "Spanish_ElSalvador"
                  else
                    "Spanish_Uruguay"
            else
              if c < 80 then
                if c < 78 then
                  "Spanish_Venezuela"
                else
                  if c < 79 then
                    "Estonian"
                  else
                    "Estonian_Estonia"
              else
                if c < 82 then
                  if c < 81 then
                    "Basque"
                  else
                    "Basque_Basque"
                else
                  if c < 83 then
                    "Persian"
                  else
                    "Persian_Iran"
        else
          if c < 98 then
            if c < 91 then
              if c < 87 then
                if c < 85 then
                  "Finnish"
                else
                  if c < 86 then
                    "Finnish_Finland"
                  else
                    "Faroese"
              else
                if c < 89 then
                  if c < 88 then
                    "Faroese_FaroeIslands"
                  else
                    "French"
                else
                  if c < 90 then
                    "French_Belgium"
                  else
                    "French_Canada"
            else
              if c < 94 then
                if c < 92 then
                  "French_France"
                else
                  if c < 93 then
                    "French_Switzerland"
                  else
                    "French_Luxembourg"
              else
                if c < 96 then
                  if c < 95 then
                    "French_PrincipalityOfMonaco"
                  else
                    "Galician"
                else
                  if c < 97 then
                    "Galician_Galician"
                  else
                    "Gujarati"
          else
            if c < 105 then
              if c < 101 then
                if c < 99 then
                  "Gujarati_India"
                else
                  if c < 100 then
                    "Hebrew"
                  else
                    "Hebrew_Israel"
              else
                if c < 103 then
                  if c < 102 then
                    "Hindi"
                  else
                    "Hindi_India"
                else
                  if c < 104 then
                    "Croatian"
                  else
                    "Croatian_Bosnia_and_Herzegovina"
            else
              if c < 108 then
                if c < 106 then
                  "Croatian_Croatia"
                else
                  if c < 107 then
                    "Hungarian"
                  else
                    "Hungarian_Hungary"
              else
                if c < 110 then
                  if c < 109 then
                    "Armenian"
                  else
                    "Armenian_Armenia"
                else
                  if c < 111 then
                    "Indonesian"
                  else
                    "Indonesian_Indonesia"
    else
      if c < 168 then
        if c < 140 then
          if c < 126 then
            if c < 119 then
              if c < 115 then
                if c < 113 then
                  "Icelandic"
                else
                  if c < 114 then
                    "Icelandic_Iceland"
                  else
                    "Italian"
              else
                if c < 117 then
                  if c < 116 then
                    "Italian_Switzerland"
                  else
                    "Italian_Italy"
                else
                  if c < 118 then
                    "Japanese"
                  else
                    "Japanese_Japan"
            else
              if c < 122 then
                if c < 120 then
                  "Georgian"
                else
                  if c < 121 then
                    "Georgian_Georgia"
                  else
                    "Kazakh"
              else
                if c < 124 then
                  if c < 123 then
                    "Kazakh_Kazakhstan"
                  else
                    "Kannada"
                else
                  if c < 125 then
                    "Kannada_India"
                  else
                    "Korean"
          else
            if c < 133 then
              if c < 129 then
                if c < 127 then
                  "Konkani"
                else
                  if c < 128 then
                    "Konkani_India"
                  else
                    "Korean_Korea"
              else
                if c < 131 then
                  if c < 130 then
                    "Kyrgyz"
                  else
                    "Kyrgyz_Kyrgyzstan"
                else
                  if c < 132 then
                    "Lithuanian"
                  else
                    "Lithuanian_Lithuania"
            else
              if c < 136 then
                if c < 134 then
                  "Latvian"
                else
                  if c < 135 then
                    "Latvian_Latvia"
                  else
                    "Maori_NewZealand"
              else
                if c < 138 then
                  if c < 137 then
                    "Macedonian"
                  else
                    "Macedonian_FormerYugoslavRepublicOfMacedonia"
                else
                  if c < 139 then
                    "Mongolian"
                  else
                    "Mongolian_Cyrillic_Mongolia"
        else
          if c < 154 then
            if c < 147 then
              if c < 143 then
                if c < 141 then
                  "Marathi"
                else
                  if c < 142 then
                    "Marathi_India"
                  else
                    "Malay"
              else
                if c < 145 then
                  if c < 144 then
                    "Malay_Brunei_Darussalam"
                  else
                    "Malay_Malaysia"
                else
                  if c < 146 then
                    "Maltese_Malta"
                  else
                    "Norwegian_Bokmal_Norway"
            else
              if c < 150 then
                if c < 148 then
                  "Dutch"
                else
                  if c < 149 then
                    "Dutch_Belgium"
                  else
                    "Dutch_Netherlands"
              else
                if c < 152 then
                  if c < 151 then
                    "Norwegian_Nynorsk_Norway"
                  else
                    "Norwegian"
                else
                  if c < 153 then
                    "Northern_Sotho_SouthAfrica"
                  else
                    "Punjabi"
          else
            if c < 161 then
              if c < 157 then
                if c < 155 then
                  "Punjabi_India"
                else
                  if c < 156 then
                    "Polish"
                  else
                    "Polish_Poland"
              else
                if c < 159 then
                  if c < 158 then
                    "Portuguese"
                  else
                    "Portuguese_Brazil"
                else
                  if c < 160 then
                    "Portuguese_Portugal"
                  else
                    "Quechua_Bolivia"
            else
              if c < 164 then
                if c < 162 then
                  "Quechua_Ecuador"
                else
                  if c < 163 then
                    "Quechua_Peru"
                  else
                    "Romanian"
              else
                if c < 166 then
                  if c < 165 then
                    "Romanian_Romania"
                  else
                    "Russian"
                else
                  if c < 167 then
                    "Russian_Russia"
                  else
                    "Sanskrit"
      else
        if c < 196 then
          if c < 182 then
            if c < 175 then
              if c < 171 then
                if c < 169 then
                  "Sanskrit_India"
                else
                  if c < 170 then
                    "Sami_Northern_Finland"
                  else
                    "Sami_Northern_Norway"
              else
                if c < 173 then
                  if c < 172 then
                    "Sami_Northern_Sweden"
                  else
                    "Slovak"
                else
                  if c < 174 then
                    "Slovak_Slovakia"
                  else
                    "Slovenian"
            else
              if c < 178 then
                if c < 176 then
                  "Slovenian_Slovenia"
                else
                  if c < 177 then
                    "Sami_Southern_Norway"
                  else
                    "Sami_Southern_Sweden"
              else
                if c < 180 then
                  if c < 179 then
                    "Sami_Lule_Norway"
                  else
                    "Sami_Lule_Sweden"
                else
                  if c < 181 then
                    "Sami_Inari_Finland"
                  else
                    "Sami_Skolt_Finland"
          else
            if c < 189 then
              if c < 185 then
                if c < 183 then
                  "Albanian"
                else
                  if c < 184 then
                    "Albanian_Albania"
                  else
                    "Serbian"
              else
                if c < 187 then
                  if c < 186 then
                    "Serbian_Cyrillic_BosniaAndHerzegovina"
                  else
                    "Serbian_Cyrillic_Serbia"
                else
                  if c < 188 then
                    "Serbian_Latin_Bosnia_and_Herzegovina"
                  else
                    "Serbian_Latin_Serbia"
            else
              if c < 192 then
                if c < 190 then
                  "Swedish"
                else
                  if c < 191 then
                    "Swedish_Finland"
                  else
                    "Swedish_Sweden"
              else
                if c < 194 then
                  if c < 193 then
                    "Kiswahili"
                  else
                    "Kiswahili_Kenya"
                else
                  if c < 195 then
                    "Syriac"
                  else
                    "Syriac_Syria"
        else
          if c < 210 then
            if c < 203 then
              if c < 199 then
                if c < 197 then
                  "Tamil"
                else
                  if c < 198 then
                    "Tamil_India"
                  else
                    "Telugu"
              else
                if c < 201 then
                  if c < 200 then
                    "Telugu_India"
                  else
                    "Thai"
                else
                  if c < 202 then
                    "Thai_Thailand"
                  else
                    "Tswana_SouthAfrica"
            else
              if c < 206 then
                if c < 204 then
                  "Turkish"
                else
                  if c < 205 then
                    "Turkish_Turkey"
                  else
                    "Tatar"
              else
                if c < 208 then
                  if c < 207 then
                    "Tatar_Russia"
                  else
                    "Ukrainian"
                else
                  if c < 209 then
                    "Ukrainian_Ukraine"
                  else
                    "Urdu"
          else
            if c < 217 then
              if c < 213 then
                if c < 211 then
                  "Urdu_IslamicRepublicOfPakistan"
                else
                  if c < 212 then
                    "Uzbek"
                  else
                    "Uzbek_Cyrillic_Uzbekistan"
              else
                if c < 215 then
                  if c < 214 then
                    "Uzbek_Latin_Uzbekistan"
                  else
                    "Vietnamese"
                else
                  if c < 216 then
                    "Vietnamese_Vietnam"
                  else
                    "Xhosa_SouthAfrica"
            else
              if c < 221 then
                if c < 219 then
                  if c < 218 then
                    "Chinese_Simplified"
                  else
                    "Chinese_Traditional"
                else
                  if c < 220 then
                    "Chinese_PeoplesRepublicOfChina"
                  else
                    "Chinese_HongKongSAR"
              else
                if c < 223 then
                  if c < 222 then
                    "Chinese_MacaoSAR"
                  else
                    "Chinese_Singapore"
                else
                  if c < 224 then
                    "Chinese_Taiwan"
                  else
                    "Zulu_SouthAfrica"
  }

  /** The text of the member's `DisplayString` attribute. */
  function Tag(c: Culture): string {
    if c < 112 then
      if c < 56 then
        if c < 28 then
          if c < 14 then
            if c < 7 then
              if c < 3 then
                if c < 1 then
                  "af-ZA"
                else
                  if c < 2 then
                    "af-ZA"
                  else
                    "ar-SA"
              else
                if c < 5 then
                  if c < 4 then
                    "ar-AE"
                  else
                    "ar-BH"
                else
                  if c < 6 then
                    "ar-DZ"
                  else
                    "ar-EG"
            else
              if c < 10 then
                if c < 8 then
                  "ar-IQ"
                else
                  if c < 9 then
                    "ar-JO"
                  else
                    "ar-KW"
              else
                if c < 12 then
                  if c < 11 then
                    "ar-LB"
                  else
                    "ar-LY"
                else
                  if c < 13 then
                    "ar-MA"
                  else
                    "ar-OM"
          else
            if c < 21 then
              if c < 17 then
                if c < 15 then
                  "ar-QA"
                else
                  if c < 16 then
                    "ar-SA"
                  else
                    "ar-SY"
              else
                if c < 19 then
                  if c < 18 then
                    "ar-TN"
                  else
                    "ar-YE"
                else
                  if c < 20 then
                    "az-Latn-AZ"
                  else
                    "az-Cyrl-AZ"
            else
              if c < 24 then
                if c < 22 then
                  "az-Latn-AZ"
                else
                  if c < 23 then
                    "be-BY"
                  else
                    "be-BY"
              else
                if c < 26 then
                  if c < 25 then
                    "bg-BG"
                  else
                    "bg-BG"
                else
                  if c < 27 then
                    "bs-Latn-BA"
                  else
                    "ca-ES"
        else
          if c < 42 then
            if c < 35 then
              if c < 31 then
                if c < 29 then
                  "ca-ES"
                else
                  if c < 30 then
                    "cs-CZ"
                  else
                    "cs-CZ"
              else
                if c < 33 then
                  if c < 32 then
                    "cy-GB"
                  else
                    "da-DK"
                else
                  if c < 34 then
                    "da-DK"
                  else
                    "de-DE"
            else
              if c < 38 then
                if c < 36 then
                  "de-AT"
                else
                  if c < 37 then
                    "de-DE"
                  else
                    "de-CH"
              else
                if c < 40 then
                  if c < 39 then
                    "de-LI"
                  else
                    "de-LU"
                else
                  if c < 41 then
                    "dv-MV"
                  else
                    "dv-MV"
          else
            if c < 49 then
              if c < 45 then
                if c < 43 then
                  "el-GR"
                else
                  if c < 44 then
                    "el-GR"
                  else
                    "en-US"
              else
                if c < 47 then
                  if c < 46 then
                    "en-029"
                  else
                    "en-AU"
                else
                  if c < 48 then
                    "en-BZ"
                  else
                    "en-CA"
            else
              if c < 52 then
                if c < 50 then
                  "en-GB"
                else
                  if c < 51 then
                    "en-IE"
                  else
                    "en-JM"
              else
                if c < 54 then
                  if c < 53 then
                    "en-NZ"
                  else
                    "en-PH"
                else
                  if c < 55 then
                    "en-TT"
                  else
                    "en-US"
      else
        if c < 84 then
          if c < 70 then
            if c < 63 then
              if c < 59 then
                if c < 57 then
                  "en-ZA"
                else
                  if c < 58 then
                    "en-ZW"
                  else
                    "es-ES"
              else
                if c < 61 then
                  if c < 60 then
                    "es-AR"
                  else
                    "es-BO"
                else
                  if c < 62 then
                    "es-CL"
                  else
                    "es-CO"
            else
              if c < 66 then
                if c < 64 then
                  "es-CR"
                else
                  if c < 65 then
                    "es-DO"
                  else
                    "es-EC"
              else
                if c < 68 then
                  if c < 67 then
                    "es-ES"
                  else
                    "es-GT"
                else
                  if c < 69 then
                    "es-HN"
                  else
                    "es-MX"
          else
            if c < 77 then
              if c < 73 then
                if c < 71 then
                  "es-NI"
                else
                  if c < 72 then
                    "es-PA"
                  else
                    "es-PE"
              else
                if c < 75 then
                  if c < 74 then
                    "es-PR"
                  else
                    "es-PY"
                else
                  if c < 76 then
                    "es-SV"
                  else
                    "es-UY"
            else
              if c < 80 then
                if c < 78 then
                  "es-VE"
                else
                  if c < 79 then
                    "et-EE"
                  else
                    "et-EE"
              else
                if c < 82 then
                  if c < 81 then
                    "eu-ES"
                  else
                    "eu-ES"
                else
                  if c < 83 then
                    "fa-IR"
                  else
                    "fa-IR"
        else
          if c < 98 then
            if c < 91 then
              if c < 87 then
                if c < 85 then
                  "fi-FI"
                else
                  if c < 86 then
                    "fi-FI"
                  else
                    "fo-FO"
              else
                if c < 89 then
                  if c < 88 then
                    "fo-FO"
                  else
                    "fr-FR"
                else
                  if c < 90 then
                    "fr-BE"
                  else
                    "fr-CA"
            else
              if c < 94 then
                if c < 92 then
                  "fr-FR"
                else
                  if c < 93 then
                    "fr-CH"
                  else
                    "fr-LU"
              else
                if c < 96 then
                  if c < 95 then
                    "fr-MC"
                  else
                    "gl-ES"
                else
                  if c < 97 then
                    "gl-ES"
                  else
                    "gu-IN"
          else
            if c < 105 then
              if c < 101 then
                if c < 99 then
                  "gu-IN"
                else
                  if c < 100 then
                    "he-IL"
                  else
                    "he-IL"
              else
                if c < 103 then
                  if c < 102 then
                    "hi-IN"
                  else
                    "hi-IN"
                else
                  if c < 104 then
                    "hr-HR"
                  else
                    "hr-BA"
            else
              if c < 108 then
                if c < 106 then
                  "hr-HR"
                else
                  if c < 107 then
                    "hu-HU"
                  else
                    "hu-HU"
              else
                if c < 110 then
                  if c < 109 then
                    "hy-AM"
                  else
                    "hy-AM"
                else
                  if c < 111 then
                    "id-ID"
                  else
                    "id-ID"
    else
      if c < 168 then
        if c < 140 then
          if c < 126 then
            if c < 119 then
              if c < 115 then
                if c < 113 then
                  "is-IS"
                else
                  if c < 114 then
                    "is-IS"
                  else
                    "it-IT"
              else
                if c < 117 then
                  if c < 116 then
                    "it-CH"
                  else
                    "it-IT"
                else
                  if c < 118 then
                    "ja-JP"
                  else
                    "ja-JP"
            else
              if c < 122 then
                if c < 120 then
                  "ka-GE"
                else
                  if c < 121 then
                    "ka-GE"
                  else
                    "kk-KZ"
              else
                if c < 124 then
                  if c < 123 then
                    "kk-KZ"
                  else
                    "kn-IN"
                else
                  if c < 125 then
                    "kn-IN"
                  else
                    "ko-KR"
          else
            if c < 133 then
              if c < 129 then
                if c < 127 then
                  "kok-IN"
                else
                  if c < 128 then
                    "kok-IN"
                  else
                    "ko-KR"
              else
                if c < 131 then
                  if c < 130 then
                    "ky-KG"
                  else
                    "ky-KG"
                else
                  if c < 132 then
                    "lt-LT"
                  else
                    "lt-LT"
            else
              if c < 136 then
                if c < 134 then
                  "lv-LV"
                else
                  if c < 135 then
                    "lv-LV"
                  else
                    "mi-NZ"
              else
                if c < 138 then
                  if c < 137 then
                    "mk-MK"
                  else
                    "mk-MK"
                else
                  if c < 139 then
                    "mn-MN"
                  else
                    "mn-MN"
        else
          if c < 154 then
            if c < 147 then
              if c < 143 then
                if c < 141 then
                  "mr-IN"
                else
                  if c < 142 then
                    "mr-IN"
                  else
                    "ms-MY"
              else
                if c < 145 then
                  if c < 144 then
                    "ms-BN"
                  else
                    "ms-MY"
                else
                  if c < 146 then
                    "mt-MT"
                  else
                    "nb-NO"
            else
              if c < 150 then
                if c < 148 then
                  "nl-NL"
                else
                  if c < 149 then
                    "nl-BE"
                  else
                    "nl-NL"
              else
                if c < 152 then
                  if c < 151 then
                    "nn-NO"
                  else
                    "nb-NO"
                else
                  if c < 153 then
                    "ns-ZA"
                  else
                    "pa-IN"
          else
            if c < 161 then
              if c < 157 then
                if c < 155 then
                  "pa-IN"
                else
                  if c < 156 then
                    "pl-PL"
                  else
                    "pl-PL"
              else
                if c < 159 then
                  if c < 158 then
                    "pt-BR"
                  else
                    "pt-BR"
                else
                  if c < 160 then
                    "pt-PT"
                  else
                    "quz-BO"
            else
              if c < 164 then
                if c < 162 then
                  "quz-EC"
                else
                  if c < 163 then
                    "quz-PE"
                  else
                    "ro-RO"
              else
                if c < 166 then
                  if c < 165 then
                    "ro-RO"
                  else
                    "ru-RU"
                else
                  if c < 167 then
                    "ru-RU"
                  else
                    "sa-IN"
      else
        if c < 196 then
          if c < 182 then
            if c < 175 then
              if c < 171 then
                if c < 169 then
                  "sa-IN"
                else
                  if c < 170 then
                    "se-FI"
                  else
                    "se-NO"
              else
                if c < 173 then
                  if c < 172 then
                    "se-SE"
                  else
                    "sk-SK"
                else
                  if c < 174 then
                    "sk-SK"
                  else
                    "sl-SI"
            else
              if c < 178 then
                if c < 176 then
                  "sl-SI"
                else
                  if c < 177 then
                    "sma-NO"
                  else
                    "sma-SE"
              else
                if c < 180 then
                  if c < 179 then
                    "smj-NO"
                  else
                    "smj-SE"
                else
                  if c < 181 then
                    "smn-FI"
                  else
                    "sms-FI"
          else
            if c < 189 then
              if c < 185 then
                if c < 183 then
                  "sq-AL"
                else
                  if c < 184 then
                    "sq-AL"
                  else
                    "sr-Latn-CS"
              else
                if c < 187 then
                  if c < 186 then
                    "sr-Cyrl-BA"
                  else
                    "sr-Cyrl-CS"
                else
                  if c < 188 then
                    "sr-Latn-BA"
                  else
                    "sr-Latn-CS"
            else
              if c < 192 then
                if c < 190 then
                  "sv-SE"
                else
                  if c < 191 then
                    "sv-FI"
                  else
                    "sv-SE"
              else
                if c < 194 then
                  if c < 193 then
                    "sw-KE"
                  else
                    "sw-KE"
                else
                  if c < 195 then
                    "syr-SY"
                  else
                    "syr-SY"
        else
          if c < 210 then
            if c < 203 then
              if c < 199 then
                if c < 197 then
                  "ta-IN"
                else
                  if c < 198 then
                    "ta-IN"
                  else
                    "te-IN"
              else
                if c < 201 then
                  if c < 200 then
                    "te-IN"
                  else
                    "th-TH"
                else
                  if c < 202 then
                    "th-TH"
                  else
                    "tn-ZA"
            else
              if c < 206 then
                if c < 204 then
                  "tr-TR"
                else
                  if c < 205 then
                    "tr-TR"
                  else
                    "tt-RU"
              else
                if c < 208 then
                  if c < 207 then
                    "tt-RU"
                  else
                    "uk-UA"
                else
                  if c < 209 then
                    "uk-UA"
                  else
                    "ur-PK"
          else
            if c < 217 then
              if c < 213 then
                if c < 211 then
                  "ur-PK"
                else
                  if c < 212 then
                    "uz-Latn-UZ"
                  else
                    "uz-Cyrl-UZ"
              else
                if c < 215 then
                  if c < 214 then
                    "uz-Latn-UZ"
                  else
                    "vi-VN"
                else
                  if c < 216 then
                    "vi-VN"
                  else
                    "xh-ZA"
            else
              if c < 221 then
                if c < 219 then
                  if c < 218 then
                    "zh-Hans"
                  else
                    "zh-Hant"
                else
                  if c < 220 then
                    "zh-CN"
                  else
                    "zh-HK"
              else
                if c < 223 then
                  if c < 222 then
                    "zh-MO"
                  else
                    "zh-SG"
                else
                  if c < 224 then
                    "zh-TW"
                  else
                    "zu-ZA"
  }

  /** `Cultures` as an enum type: the declared members in order, each with
      its identifier, its position as value and its one attribute. */
  const CulturesEnum: Enums.EnumType<nat> :=
    Enums.EnumType(seq(Count, i requires 0 <= i < Count => Enums.Member(Name(i), i, [Tag(i)])))

  /** The defined values are exactly the positions. */
  lemma DefinedValues()
    ensures forall v: nat :: v in Enums.Defined(CulturesEnum) <==> v < Count
  {
    forall v | v in Enums.Defined(CulturesEnum)
      ensures v < Count
    {
      var m :| m in CulturesEnum.members && m.value == v;
      var i :| 0 <= i < |CulturesEnum.members| && CulturesEnum.members[i] == m;
    }
    forall c: nat | c < Count
      ensures c in Enums.Defined(CulturesEnum)
    {
      assert CulturesEnum.members[c] in CulturesEnum.members;
    }
  }

  /** `DisplayString` of every member is that member's culture name: no
      member falls back to its identifier, and none throws. Any other
      number names no member and throws. */
  lemma DisplayStringIsTag(c: Culture, v: nat)
    ensures Enums.DisplayString(CulturesEnum, c) == Success(Tag(c))
    ensures v >= Count ==> Enums.DisplayString(CulturesEnum, v).Failure?
  {
    assert Enums.DistinctValues(CulturesEnum);
    Enums.DisplayStringOfMember(CulturesEnum, c);
    DefinedValues();
  }

  predicate IsLowerLetter(ch: char) {
    'a' <= ch <= 'z'
  }

  /** The name opens with a two- or three-letter lower-case ISO 639 language
      code, then a `-` and a further subtag. */
  predicate HasLanguagePrefix(t: string) {
    && |t| >= 4
    && IsLowerLetter(t[0])
    && IsLowerLetter(t[1])
    && (t[2] == '-' || (IsLowerLetter(t[2]) && t[3] == '-' && |t| >= 5))
  }

  /** Every culture name the enum carries has that shape. */
  lemma TagsHaveLanguagePrefix(c: Culture)
    ensures HasLanguagePrefix(Tag(c))
  {
    if c < 25 {
      TagsFrom0HaveLanguagePrefix(c);
    } else if c < 50 {
      TagsFrom25HaveLanguagePrefix(c);
    } else if c < 75 {
      TagsFrom50HaveLanguagePrefix(c);
    } else if c < 100 {
      TagsFrom75HaveLanguagePrefix(c);
    } else if c < 125 {
      TagsFrom100HaveLanguagePrefix(c);
    } else if c < 150 {
      TagsFrom125HaveLanguagePrefix(c);
    } else if c < 175 {
      TagsFrom150HaveLanguagePrefix(c);
    } else if c < 200 {
      TagsFrom175HaveLanguagePrefix(c);
    } else {
      TagsFrom200HaveLanguagePrefix(c);
    }
  }

  lemma TagsFrom0HaveLanguagePrefix(c: Culture)
    requires 0 <= c < 25
    ensures HasLanguagePrefix(Tag(c))
  {
  }

  lemma TagsFrom25HaveLanguagePrefix(c: Culture)
    requires 25 <= c < 50
    ensures HasLanguagePrefix(Tag(c))
  {
  }

  lemma TagsFrom50HaveLanguagePrefix(c: Culture)
    requires 50 <= c < 75
    ensures HasLanguagePrefix(Tag(c))
  {
  }

  lemma TagsFrom75HaveLanguagePrefix(c: Culture)
    requires 75 <= c < 100
    ensures HasLanguagePrefix(Tag(c))
  {
  }

  lemma TagsFrom100HaveLanguagePrefix(c: Culture)
    requires 100 <= c < 125
    ensures HasLanguagePrefix(Tag(c))
  {
  }

  lemma TagsFrom125HaveLanguagePrefix(c: Culture)
    requires 125 <= c < 150
    ensures HasLanguagePrefix(Tag(c))
  {
  }

  lemma TagsFrom150HaveLanguagePrefix(c: Culture)
    requires 150 <= c < 175
    ensures HasLanguagePrefix(Tag(c))
  {
  }

  lemma TagsFrom175HaveLanguagePrefix(c: Culture)
    requires 175 <= c < 200
    ensures HasLanguagePrefix(Tag(c))
  {
  }

  lemma TagsFrom200HaveLanguagePrefix(c: Culture)
    requires 200 <= c < 225
    ensures HasLanguagePrefix(Tag(c))
  {
  }

  /** In particular every culture name contains a `-` separator. */
  lemma TagsContainSeparator(c: Culture)
    ensures '-' in Tag(c)
  {
    TagsHaveLanguagePrefix(c);
    var t := Tag(c);
    if t[2] == '-' {
      assert t[2] in t;
    } else {
      assert t[3] in t;
    }
  }

  /** Neutral members carry the name of a specific culture, so two members
      can share one. */
  lemma NeutralCulturesShareTags()
    ensures Tag(Afrikaans) == Tag(Afrikaans_SouthAfrica) == "af-ZA"
    ensures Tag(Arabic) == Tag(Arabic_SaudiArabia) == "ar-SA"
    ensures Tag(English) == Tag(English_UnitedStates) == "en-US"
    ensures Tag(Serbian) == Tag(Serbian_Latin_Serbia) == "sr-Latn-CS"
    ensures Name(Afrikaans) != Name(Afrikaans_SouthAfrica)
  {
  }

  /** A region written as a numeric area code. */
  lemma NumericRegionTag()
    ensures Tag(English_Caribbean) == "en-029"
  {
  }

  /** A language with its country. */
  lemma JapaneseTag()
    ensures Tag(Japanese_Japan) == "ja-JP"
  {
  }

  /** The script-only Chinese names. */
  lemma ChineseScriptTags()
    ensures Tag(Chinese_Simplified) == "zh-Hans"
    ensures Tag(Chinese_Traditional) == "zh-Hant"
  {
  }
}
